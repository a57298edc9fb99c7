# Verification of the reactive policy operator

This project models the operator that watches a metric, runs a pipeline of action plugins when a
threshold stays crossed, may hold the rest of the pipeline for a human's approval, and keeps an
append-only audit record that can be reverted. It proves what the parts promise together, over
whole runs.

- `Protocol.dfy` is the operator as a transition system: the policy reconciler, the audit
  reconciler, human clients behind the admission handler, the sink's writer, the clock, restarts
  and the retention sweep act on versioned objects. One step is one write to a shared object, or one
  read of them, with the local code up to the next; every write may fail or conflict. Calls whose
  answer does not depend on what others do meanwhile are part of the step before them: the metric
  query, the target lists and the plugin calls belong to the step that lists the records
  (`PolicyEvaluate`), the lookup of the retention and the deletion of an overdue record to the one
  that decides (`AuditDecide`), and the held half's plugin calls to the one that reads the policy
  (`AuditRelease`). Nothing they depend on can change in between, an overdue record stays overdue,
  and an operator that goes down among them is a restart right after the step.
- `GateInvariant`, `GateSafety`, `GateEnds`, `RecordHistory`, `Evaluation`, `TriggerSpacing`,
  `TriggerSamples`, `ResolvedGate`, `TailQuiet`, `OneGate`, `RollingCap` and `SinkAgreement` prove its
  invariants, and exactly when a policy triggers and how a gate ends. `CapThreshold` and
  `QuietBound` say exactly when the rolling cap holds and how long the quiet period after a gate is;
  `Counterexamples` shows that neither half of an orderly run can be dropped. Their runs are built
  from the pieces in `Scenarios`, for whole families of configurations.
- `RecordResults` and `RunReverts` put the cluster beside the protocol: from a trigger, over its record
  and its gate, to the revert that undoes it. `LostAttempt` shows what a lost attempt leaves behind.
- `Store.dfy`, `PolicyReconciler.dfy` and `AuditReconciler.dfy` are the two reconcilers in their own
  imperative form, over the shared store, the window, the limiter and the executor. Every
  execution that is not cut short, with any interference between its calls, is proved to be a run of
  the protocol, so the run theorems speak about the code (`Guarantees.dfy`). A restart in the middle
  of a reconcile is a step of the protocol only.
- `Ranges.dfy` and `Halves.dfy` hold the two halves the reconcilers run against the pipeline they were cut
  from: where each starts and ends, and that together they are the whole.
- `Executor.dfy`, `UndoLaw.dfy`, `AuditRecord.dfy`, `ReplayLaw.dfy`, `RevertLaw.dfy`: pipeline
  semantics, split at the gate, undo, and the replay of the undo from the record, also of what a
  rollback has undone already.
- `MeshShift.dfy`, `MeshRoundTrip.dfy`, `MeshPlugin.dfy`, `MeshReplay.dfy`, `AnnotatePlugin.dfy`: one
  plugin that meets the undo law and one that meets it only sometimes.
- `SlidingWindow.dfy`, `RateLimiter.dfy`, `ApprovalWebhook.dfy`, `PolicyValidation.dfy`,
  `AuditSink.dfy`, `Sorting.dfy`, `Rbac.dfy`, `RbacMerge.dfy`, `RbacExact.dfy`: the remaining parts.

Hypotheses, stated where they are used:

- One policy with a fixed spec and UID; reconciles of one key are serial; reads see the store; time
  is a non-decreasing number of seconds.
- Clients change only the verdict, its reason and stamps, and the revert request.
- The rolling cap holds exactly when the retention is at least an hour, or the triggers it allows
  take an hour by their spacing alone (`CapThreshold.RollingCapExactly`); admission enforces neither.
  It needs a positive duration, which admission does enforce. A gated record whose Pending mark
  failed is not counted by the limiter; the theorem adds the number of these.
- An API call that reports an error did not reach the store. A call that lands and still reports an
  error, as after a timeout, is not modelled; it would skip a bump of an ungated create, and count as
  lost an attempt whose write is there.
- One open gate needs the write of a new gate's reference to land, and no trigger between the end of a
  gate and the end of its startCooldown (`OneGate.Orderly`). Each of the two is needed. A run is calm
  (`ResolvedGate.CalmRun`) if not even an evaluation that does not trigger falls there; only the
  cooldown part of the quiet period needs that.
- The undo theorems need plugins that meet the undo law, and records that no rollback has touched or
  plugins that are replayable (`ReplayLaw.Replayable`), as mesh.shift is. mesh.shift meets the law when
  Reverse's calls get through and nobody else edits the route between Execute and Reverse; the calls of
  k8s.annotate's Reverse are taken to get through as well.

Where the code and its own comments differ the model follows the code:

- `internal/controller/actionaudit_controller.go:297-298` says the policy reconciler re-derives a
  lost cooldown. It only drops the reference (`reactivepolicy_controller.go:112-116`); after a lost
  startCooldown only the spacing by `duration` remains.
- A rollback leaves the status of what it reversed at Succeeded, so a later revert reverses it a
  second time (`AuditRecord.RevertAfterRollbackReversesTwice`); for mesh.shift this does no harm.
- A trigger opens its gate even if the half before it aborted (`reactivepolicy_controller.go:249-286`), so an
  approval then runs actions that the pipeline as a whole would not have reached.
- The held half runs at least once per approval, not at most once: an attempt whose spec or status
  write fails is repeated (`GateSafety.HeldHalfAccounting`).
- A closed gate's skipped records are never handed to the sink; the table then lacks those rows.
- An empty list of API groups shares its key with the core group (`RbacExact.EmptyGroupsLeakVerbs`).

## Model

| member | source | states |
|---|---|---|
| `GateSafety.ExpiryAndApprovalNeverBothWin` | internal/controller/actionaudit_controller.go:111-133 | In every reachable state an expired gate was never decided and its held half never ran; an approved one carries an approval; and the held half ran at all only if an approval was admitted on the Pending record strictly before its expiry, whatever lands between the reconciler's read and its writes. |
| `GateSafety.HeldHalfAccounting` | internal/controller/actionaudit_controller.go:138-231 | Executions of the held half equal lost attempts, plus one if the gate reached Approved, plus one attempt in flight; a denied decision means none. Reverts are counted the same way. |
| `GateSafety.LostExactlyByFailure` | internal/controller/actionaudit_controller.go:193-214 | In every run the number of lost executions goes up, by one, in exactly the steps where the operator goes down during a release or the release's next write does not reach the store. |
| `GateSafety.OwnUpdatesAdmitted` | internal/webhook/v1alpha1/actionaudit_webhook.go:86-102 | In every reachable state, the spec update by which a release or a closing adds its records passes the operator's own admission handler. |
| `GateSafety.PendingHasGate` | internal/controller/actionaudit_controller.go:112-118 | A Pending record always describes its gate and holds at least one plugin, so the branch for a missing gate is unreachable. |
| `GateSafety.BlastRadiusFrozen` | internal/controller/actionaudit_controller.go:160-186 | A trigger's targets are non-empty and at most max(1, maxResources), the gate carries exactly them, and every record of either half names one of them or says it did not run, at the index it stands at. |
| `GateSafety.LaterStatesExtend` | internal/controller/actionaudit_controller.go:92-118 | Over any stretch of any run: phases move only from empty to Pending to one end and stay there, recorded actions stay in front unchanged, an admitted verdict stands, targets and trigger time never change. |
| `GateSafety.EveryStepExtends` | internal/controller/actionaudit_controller.go:71-104 | The same for every single step of anybody in any run, with the phase moving at most one place. |
| `GateEnds.VerdictDecides` | internal/controller/actionaudit_controller.go:111-133 | At any time a Pending gate waits if and only if it is undecided and before its expiry, is released on an approval, and is otherwise closed, Denied or Expired, with every held plugin recorded as not run. |
| `GateEnds.OpenGateWaits` | internal/controller/actionaudit_controller.go:130-132 | From every reachable state, a reconcile of an undecided gate before its expiry changes nothing. |
| `GateEnds.RefusedGateEnds` | internal/controller/actionaudit_controller.go:122-129 | From every reachable state, an undisturbed reconcile ends a denied gate Denied and, from its expiry on, an undecided one Expired: all held actions on the record with the reason, nothing run or handed to the sink, the reference dropped and the cooldown started. |
| `GateEnds.ApprovedGateEnds` | internal/controller/actionaudit_controller.go:138-231 | From every reachable state, an undisturbed reconcile ends an approved gate Approved: exactly the held half's results are added in order, one more run is counted, the sink is handed the whole record, and the cooldown starts. |
| `GateInvariant.StepKeepsSafe` | internal/controller/actionaudit_controller.go:71-352 | The invariant behind these holds after every step: any interleaving, any failing write, any restart. |
| `GateInvariant.RunKeepsSafe` | internal/controller/reactivepolicy_controller.go:72-305 | The invariant holds in every state a run reaches. |
| `GateInvariant.ClientGateKeeps` | internal/webhook/v1alpha1/actionaudit_webhook.go:86-135 | Whatever verdict fields a client sends with its update, what admission lets through keeps the record's invariant: the verdict on the record is the admitted one, stamped by admission. |
| `GateInvariant.WriteStatusKeeps` | internal/controller/actionaudit_controller.go:200-214 | The status write that ends a gate keeps the invariant, because the version it was read at pins the verdict it was decided on. |
| `GateInvariant.WriteSpecKeeps` | internal/controller/actionaudit_controller.go:188-198 | The write that adds the held actions' records keeps the invariant, and indices stay equal to positions. |
| `Guarantees.HeldHalfOnlyOnApproval` | internal/controller/actionaudit_controller.go:138-231 | The accounting and the expiry theorem for every state the two reconcilers' code brings the shared store to. |
| `Guarantees.TriggersAreBounded` | internal/controller/reactivepolicy_controller.go:92-305 | The cap and the spacing theorem for every state the two reconcilers' code brings the shared store to. |
| `TriggerSpacing.TriggersADurationApart` | internal/controller/reactivepolicy_controller.go:182-204 | Any two triggers of any run are at least `duration` apart, with arbitrary samples, lost status writes and restarts. |
| `TriggerSpacing.UngatedCooldown` | internal/controller/reactivepolicy_controller.go:118-128 | Without a gate: the trigger after one at t whose closing status write landed comes at t + cooldown + duration or later. |
| `TriggerSpacing.RunKeepsSpacing` | internal/controller/reactivepolicy_controller.go:285-297 | The window never reaches back before the latest trigger. |
| `TriggerSpacing.RunKeepsCooldown` | internal/controller/reactivepolicy_controller.go:376-384 | Once the latest trigger's status landed, the stored policy carries its time and the window begins no earlier than the end of the cooldown. |
| `Evaluation.TriggersExactly` | internal/controller/reactivepolicy_controller.go:118-228 | An evaluation triggers if and only if the cooldown is over, a count younger than the poll interval or else the records of the last hour leave room, the value is past the threshold and has been since the window opened a duration ago or earlier, and the targets resolve to at most maxResources. |
| `Evaluation.LooksExactly` | internal/controller/reactivepolicy_controller.go:118-189 | What it leaves in the window: unchanged without a client, with an unreadable threshold or behind a gate; empty after a failed query or a value within bounds; otherwise open since the first crossing. |
| `Evaluation.StaleCountRefusesNothing` | internal/controller/ratelimit.go:69-100 | In every reachable state: if the cached count is at least a poll interval old, or there is none, and the list succeeds with fewer than the cap in the last hour, the evaluation looks at the metric, triggers if the crossing is sustained, and caches that number as of now. |
| `ResolvedGate.GatedCooldown` | internal/controller/actionaudit_controller.go:289-301 | In a calm run, after startCooldown(d) landed, the next trigger comes at d + max(cooldown, duration - lag) or later, where lag bounds how long after taking its time a reconcile looks at the gate. QuietBound proves that nothing larger holds. |
| `TailQuiet.TailDelay` | internal/controller/actionaudit_controller.go:289-301 | In an orderly run the first trigger after startCooldown(d) comes at d + max(0, duration - lag) or later. |
| `TailQuiet.RunKeepsTail` | internal/controller/reactivepolicy_controller.go:94-116 | The invariant behind it: a window opened in a tail is no older than the decision it waits for, less lag. |
| `QuietBound.QuietPeriodExactly` | internal/controller/reactivepolicy_controller.go:92-189 | For every gated policy that can trigger, every lag and every gap: all calm runs prompt within lag keep the first trigger after startCooldown(d) at d + gap or later if and only if gap <= max(cooldown, duration - lag). |
| `QuietBound.FullQuietPeriodExactly` | internal/controller/reactivepolicy_controller.go:92-116 | So the full d + max(cooldown, duration) is kept over all calm runs if and only if lag is 0 or the cooldown is at least the duration. |
| `QuietBound.OrderlyQuietPeriodExactly` | internal/controller/reactivepolicy_controller.go:92-189 | If evaluations may fall into the tail of a resolution, as long as none of them triggers there, the quiet period is max(0, duration - lag) and nothing more. |
| `QuietBound.CalmMattersExactly` | internal/controller/actionaudit_controller.go:278-301 | So an evaluation in a tail costs part of the quiet period if and only if the cooldown is longer than max(0, duration - lag). |
| `QuietBound.CalmBoundIsReached` | internal/controller/reactivepolicy_controller.go:92-116 | For every such policy and lag, whatever the two evaluations yield: a calm run, prompt within lag, whose trigger comes exactly at d + max(cooldown, duration - lag). |
| `QuietBound.OrderlyBoundIsReached` | internal/controller/reactivepolicy_controller.go:92-128 | And an orderly one in which an evaluation in the tail opens the window, and a reconcile that read the policy before startCooldown triggers at d + max(0, duration - lag). |
| `ResolvedGate.RunKeepsQuiet` | internal/controller/reactivepolicy_controller.go:94-116 | In a calm run the window stays empty while a gate is open and until its resolution is through. |
| `OneGate.OneOpenGate` | internal/controller/reactivepolicy_controller.go:94-116 | In an orderly run (new references land, and the policy does not trigger in the tail of a resolution) at most one record is Pending, and the policy refers to it, at the latest once the reconcile that opened it has ended. |
| `OneGate.NoTriggerBehindOpenGate` | internal/controller/reactivepolicy_controller.go:99-111 | In an orderly run no evaluation changes anything while a gate is open: no pre-gate action runs. |
| `OneGate.RunKeepsOneGate` | internal/controller/actionaudit_controller.go:278-301 | The invariant behind both, over every orderly run. |
| `Counterexamples.LostReferenceOpensSecondGate` | internal/controller/reactivepolicy_controller.go:376-384 | For every gated policy that can trigger, whatever its evaluations yield: a run that is orderly but for one single step, the loss of the write naming the first gate, and in which no evaluation ever falls into a tail, ends with two gates open. |
| `Counterexamples.TailTriggerLosesReference` | internal/controller/actionaudit_controller.go:278-301 | For every such policy, whatever its evaluations yield: a run in which every reference lands, but the policy triggers between the end of a gate and its startCooldown, ends with a gate open and nothing referring to it. |
| `RollingCap.RollingCapHolds` | internal/controller/ratelimit.go:59-117 | With a retention of at least an hour, or with maxTriggersPerHour * duration of at least an hour, every half-open hour holds at most maxTriggersPerHour records plus the skipped bumps, whatever the time to live, the delays and the restarts. |
| `CapThreshold.RollingCapExactly` | internal/controller/ratelimit.go:59-117 | For every policy that can trigger, gated or not: all runs keep that cap if and only if the retention is at least an hour or maxTriggersPerHour * duration is. |
| `CapThreshold.UngatedCapExactly` | internal/controller/reactivepolicy_controller.go:130-144 | Without a gate the same threshold decides whether every run keeps the cap itself, with no bump ever skipped. |
| `CapThreshold.UnguardedOverruns` | internal/controller/actionaudit_controller.go:82-90 | Below both, whatever the evaluations yield, a run that skips no bump holds maxTriggersPerHour + 1 records in one hour: a restart drops the count and the sweep reclaims the first record before a reconcile that took its time earlier lists. |
| `RollingCap.RunKeepsSpaced` | internal/controller/reactivepolicy_controller.go:182-204 | Records of any two triggers are at least `duration` apart; the window opens after all of them. |
| `RollingCap.SpacedHourBounded` | internal/controller/ratelimit.go:88-93 | Records a gap apart leave room for at most n in an hour when n gaps take an hour. |
| `RollingCap.UngatedCapIsExact` | internal/controller/reactivepolicy_controller.go:130-144 | For a pipeline without a gate no bump is ever skipped, so under the same condition the cap is exact. |
| `RollingCap.UngatedNeverSkips` | internal/controller/reactivepolicy_controller.go:292-297 | A bump is skipped only where marking a new gate Pending failed. |
| `RollingCap.RunKeepsCap` | internal/controller/ratelimit.go:69-117 | A cached count, with skipped or due bumps, is never below the exact trailing-hour count at any later time; an open window leaves room for a trigger. |
| `RollingCap.ListCoversTheHour` | internal/controller/ratelimit.go:80-93 | A list, however late after its reconcile took its time, counts every record of the trailing hour: what the retention sweep removed is older. |
| `RollingCap.EveryHourBounded` | internal/controller/ratelimit.go:88-93 | Bounding the hours that end at a trigger bounds every hour. |
| `RateLimiter.AuditLimiter.Count` | internal/controller/ratelimit.go:69-100 | A count younger than the time to live is served; any other is replaced by exactly the number of listed times later than an hour ago, cached as of now; a failed list caches nothing. |
| `RateLimiter.AuditLimiter.Allowed` | internal/controller/ratelimit.go:59-65 | Allowed exactly when that count is below the cap, refused as an error when the list fails. |
| `RateLimiter.AuditLimiter.Observe` | internal/controller/ratelimit.go:104-117 | Bumps and re-dates a cached entry, and only that. |
| `RateLimiter.AuditLimiter.Forget` | internal/controller/ratelimit.go:120-124 | Drops this policy's entry and no other. |
| `RateLimiter.CountAfterIsCardinality` | internal/controller/ratelimit.go:88-93 | Counting a list that holds each record once is counting the records newer than the cutoff. |
| `RateLimiter.CountAfterCounts` | internal/controller/ratelimit.go:88-93 | Counting the list is counting its positions with a later time. |
| `RateLimiter.KeyInjective` | internal/controller/ratelimit.go:70 | Policies never share a cache entry: namespaces hold no slash. |
| `SinkAgreement.RowsAgreeWithRecord` | internal/audit/sink/postgres/pgxwriter.go:27-34 | In every reachable state every row of the table is the record's entry at that index, whatever batches were dropped, repeated or reordered. |
| `SinkAgreement.HandedOverExactly` | internal/controller/auditwriter.go:60-66 | In every run the sink is handed a record in exactly these steps, and then the whole of it: the create of an ungated trigger's, the Pending mark of a gated one's if anything ran in front of the gate, and the phase write of an approved one's if the held half reported anything. |
| `SinkAgreement.OneWholeBatchCompletesTheTable` | internal/controller/auditwriter.go:145-174 | Once one batch with the whole record is written the table holds the record, even if earlier batches were dropped. |
| `SinkAgreement.ReleaseHandsOverWholeRecord` | internal/controller/actionaudit_controller.go:216-221 | A release hands the sink the whole record, both halves, at the moment its gate is resolved. |
| `SinkAgreement.WholeBatchStaysWhole` | internal/controller/auditwriter.go:145-174 | A batch that is whole when its gate is resolved is whole in every later state. |
| `SinkAgreement.WholeBatchCompletesForGood` | internal/audit/sink/postgres/pgxwriter.go:27-34 | Whenever it is written, the table holds the whole record from then on, in every later state. |
| `RecordHistory.RecordHoldsWhatWasWritten` | internal/controller/actionaudit_controller.go:186-241 | In every reachable state the record is what it was created with, followed by what reconciles wrote to it in order: one piece per run of the held half whose write landed, and skipped actions; the runs it lacks are exactly those whose write was lost, and one whose write is due. |
| `RecordHistory.ApprovedHoldsBothHalvesOnce` | internal/controller/actionaudit_controller.go:138-231 | The record of an approved gate without a lost attempt holds the first half and exactly one run of the held half; anything else in it is a skipped action. |
| `RecordHistory.RevertWaitsForTheGate` | internal/controller/actionaudit_controller.go:92-103 | A reconcile that replays the undo read a record that was not Pending. |
| `RecordHistory.ResolvedRecordIsFrozen` | internal/controller/actionaudit_controller.go:92-104 | Once a gate is resolved the actions of its record never change again. |
| `SinkAgreement.InsertExact` | internal/audit/sink/postgres/pgxwriter.go:27-34 | Inserting part of a record's rows adds exactly those that were missing and keeps the ones there. |
| `ApprovalWebhook.VerdictIsWriteOnce` | internal/webhook/v1alpha1/actionaudit_webhook.go:68-135 | After any list of updates a gate the operator opened is undecided, or carries the verdict, name and time of one admitted request made while it was Pending and before its expiry; no second update decides. |
| `ApprovalWebhook.AdmittedExactly` | internal/webhook/v1alpha1/actionaudit_webhook.go:68-135 | An update goes through if and only if it neither adds nor removes the gate, and leaves the verdict and its stamps alone or is the first one, approve or deny, on a Pending record before its expiry; what is stored is what was sent under the requester's name and the time. |
| `ApprovalWebhook.VerdictStays` | internal/webhook/v1alpha1/actionaudit_webhook.go:97-107 | A decided verdict, its name and its time never change again. |
| `ApprovalWebhook.OperatorUpdatesAdmitted` | internal/webhook/v1alpha1/actionaudit_webhook.go:95-102 | Updates that only add action records are admitted unchanged. |
| `Executor.RunRange` | internal/action/executor.go:63-101 | Runs the clamped range action by action: the first failure whose onFailure is stop, rollback or left out ends it at once and is named by the error, a failure that is to continue never does, and results are one per action executed; the range is undone exactly if that action asks for a rollback, and nothing is reversed otherwise. |
| `Executor.GateIndex` | internal/action/executor.go:107-114 | The first action that requires approval, or -1 when there is none. |
| `Executor.RollbackInPlace` | internal/action/executor.go:169-184 | rollback walks backwards and annotates the results in place; the final cluster and results are those of undoing last first, and the Reverse calls are exactly the expected ones in order. |
| `Executor.ReverseInPlace` | internal/action/executor.go:170-183 | One turn of that loop: skipped entries are untouched, reversed ones are annotated with success or the error. |
| `UndoLaw.AbortCharacterisation` | internal/action/executor.go:63-101 | The abort rule over every pipeline, range and state: an error is returned if and only if some action of the clamped range fails with onFailure empty, stop or rollback, and names the first; every earlier failure was to continue; results are the executions up to it, in order, all for this target. |
| `UndoLaw.ExecutionReports` | internal/action/executor.go:118-164 | One execution: an unregistered plugin fails without touching the cluster; a registered one is executed with the action's parameters on this target, and what it leaves unsaid is filled in, succeeded unless it returned an error. |
| `UndoLaw.RollbackExactlyOnceDescending` | internal/action/executor.go:169-184 | rollback reverses exactly the succeeded entries with a registered plugin, each once, in strictly descending order. |
| `UndoLaw.RollbackAnnotates` | internal/action/executor.go:169-197 | After a rollback an entry is marked reversed exactly if it had succeeded, its plugin is registered and undid it on the cluster the later entries' undoing left; a failed undo leaves its error; nothing else changes. |
| `UndoLaw.SplitRefinesWhole` | internal/action/executor.go:54-101 | Running [0,g) and then [g,n) against running [0,n): the same state, results and error, except that an aborted first half is the whole run and a rolled back second half leaves the first one's successes in place. |
| `UndoLaw.RollbackRestores` | internal/action/executor.go:166-184 | For plugins whose failed or skipped Execute changes nothing and whose Reverse inverts a success, a rolled back range leaves the cluster as it found it. |
| `UndoLaw.UndoInvertsRange` | internal/action/executor.go:169-184 | Undoing everything a range executed, from the state it left, ends where the range began. |
| `UndoLaw.TargetsUndone` | internal/controller/reactivepolicy_controller.go:247-255 | The same for one half over all its targets, from the results as they were recorded. |
| `UndoLaw.TargetsConfined` | internal/controller/actionaudit_controller.go:160-186 | No result of a half names a target outside the given list. |
| `UndoLaw.RunEach` | internal/controller/reactivepolicy_controller.go:247-255 | The loop over targets collects every result and keeps the last error. |
| `Ranges.TargetsInTurn` | internal/controller/reactivepolicy_controller.go:247-255 | Targets are served in turn, each from the cluster its predecessors left, whatever failed on them. |
| `Ranges.EachTargetStarts` | internal/action/executor.go:75-79 | The first result for each target is the execution of the range's first action on it. |
| `Ranges.RangeIgnoresRest` | internal/action/executor.go:63-79 | Two pipelines that agree on a range do the same there, whatever they hold elsewhere. |
| `Ranges.RangeBounded` | internal/action/executor.go:63-79 | No target gets more results than the range has actions. |
| `Halves.NothingBehindTheGateRuns` | internal/controller/reactivepolicy_controller.go:233-255 | What a trigger does to the cluster and reports depends on the actions in front of the gate alone: two policies that agree there do the same, whatever is at or behind the gate. |
| `Halves.NothingInFrontOfTheGateRuns` | internal/controller/actionaudit_controller.go:176-186 | What a release does depends on the gated action and those behind it alone. |
| `Halves.GatedActionRunsOnEachTarget` | internal/controller/actionaudit_controller.go:160-186 | On every target recorded on the gate the first result of a release is the execution of the gated action itself. |
| `Halves.HalvesMakeTheWhole` | internal/controller/actionaudit_controller.go:138-186 | On one target, the trigger's half and then the release's are the run of the whole pipeline, merged as for any split: no action is left out or run twice. |
| `Halves.UngatedRunsTheWhole` | internal/controller/reactivepolicy_controller.go:233-255 | Without a gate a trigger runs the whole pipeline. |
| `Halves.HalvesServeInTurn` | internal/controller/reactivepolicy_controller.go:247-255 | A trigger's half on a list of targets is that on its first part and then, from the cluster this leaves, on its second. |
| `AuditRecord.AppendRecords` | internal/controller/actionaudit_controller.go:188-192 | Appends one record per result, numbered on from what is there. |
| `AuditRecord.RecordRoundTrip` | internal/controller/auditwriter.go:181-228 | Nothing a plugin's Reverse reads is lost by persisting a result; the record says whether the plugin can undo itself, and carries details exactly if there are any. |
| `AuditRecord.ReverseOne` | internal/controller/actionaudit_controller.go:356-383 | Reverses a record exactly when it succeeded, says it is reversible and its plugin is registered; the outcome is Succeeded exactly if the plugin undid it, Skipped if there was nothing to undo, Failed otherwise. |
| `AuditRecord.Revert` | internal/controller/actionaudit_controller.go:317-326 | Replays every record's undo, last record first, with one outcome per record, under its index and plugin, about the cluster as the records behind it had left it. |
| `AuditRecord.RevertedInTurn` | internal/controller/actionaudit_controller.go:317-383 | Record by record, last first: exactly the succeeded, reversible, registered ones reach the cluster. |
| `AuditRecord.RevertIsUndo` | internal/controller/actionaudit_controller.go:322-326 | Over records that all say they are reversible, revert makes the same undo as a rollback of the results they were written from. |
| `AuditRecord.RevertRestoresTrigger` | internal/controller/actionaudit_controller.go:317-352 | Both halves of a trigger over all targets, written to one record and reverted once: the cluster is back in the state before the trigger, if no rollback came before or the plugins are replayable. |
| `RunReverts.RevertUndoesTrigger` | internal/controller/actionaudit_controller.go:317-352 | End to end over any run: a policy over lawful reversible plugins triggers, its gate, if any, is approved, denied or left to expire, and a reconcile replays the undo of the record it reads, while nothing else touches the cluster. If no release attempt was lost, and the record bears no mark of a rollback or the plugins are replayable, the cluster is back in the state before the trigger. |
| `RunReverts.RunAlong` | internal/controller/reactivepolicy_controller.go:237-304 | From the trigger on, in every state of such a run, the record reports the halves that ran with exactly their results, and the cluster is as those halves left it. |
| `RunReverts.StepAsRun` | internal/controller/actionaudit_controller.go:138-246 | Every step that triggers nothing and undoes nothing keeps the record in agreement with what ran, from the results in the reconcile's hands before the create to the spec write of a release. |
| `LostAttempt.LostAttemptOutlivesRevert` | internal/controller/actionaudit_controller.go:193-214 | A run with one lost release attempt, over lawful plugins and without a rollback or anything else on the cluster: the held half runs twice, the record holds one run, and the revert leaves the other behind. |
| `RecordResults.RevertUndoesReported` | internal/controller/actionaudit_controller.go:317-383 | Reverting a record is undoing the results it reports, skipped entries aside. |
| `AuditRecord.RevertAfterRollbackReversesTwice` | internal/action/executor.go:178-182 | A concrete pipeline over lawful plugins whose rollback restored the cluster and whose later revert reverses the same action a second time. |
| `RevertLaw.ReversibleTriggerReverts` | internal/controller/actionaudit_controller.go:317-383 | The restoring revert for every pipeline whose plugins meet the undo law and are reversible, if no rollback came before or the plugins are replayable. |
| `ReplayLaw.RangeUndoneAgain` | internal/action/executor.go:169-184 | Replayable plugins, whose reversals overwrite rather than count: undoing a range in the state it started from changes nothing. |
| `ReplayLaw.TargetsUndoneAnyway` | internal/controller/reactivepolicy_controller.go:247-255 | For lawful replayable plugins, undoing a half over all its targets from its recorded results restores the state before it, whether or not a rollback came first. |
| `RevertLaw.SingleActionsBearRevertExactly` | internal/action/executor.go:178-182 | For a lawful plugin, every single action followed by a rollback bears a later revert if and only if reversing an execution in the state it started from changes nothing. |
| `MeshShift.HTTPRoute.ApplyWeight` | plugins/mesh-shift/plugin.go:197-244 | The nested loops set exactly the entries of the backend that are not at the weight yet, log what each was, and tell "not found" from "nothing to do". |
| `MeshShift.HTTPRoute.ApplyToRules` | plugins/mesh-shift/plugin.go:205-238 | The outer loop, over the rules. |
| `MeshShift.HTTPRoute.ApplyToRule` | plugins/mesh-shift/plugin.go:214-235 | The inner loop, over one rule's backendRefs. |
| `MeshShift.HTTPRoute.RestoreWeights` | plugins/mesh-shift/plugin.go:247-281 | Writes each logged weight back or removes the field, ignoring positions that are no longer there. |
| `MeshShift.ToIntTruncates` | plugins/mesh-shift/plugin.go:313-324 | A fraction reads as the whole number next to it towards zero, and only numbers are read. |
| `MeshRoundTrip.ShiftReachesOnlyItsBackend` | plugins/mesh-shift/plugin.go:215-234 | After a shift every entry of the backend stands at the weight and every other entry is what it was. |
| `MeshRoundTrip.StackedRoundTrip` | plugins/mesh-shift/plugin.go:193-281 | For any route and any list of shifts, restoring the logs in reverse order gives back exactly the original route if and only if every entry that some shift overrides had an absent or integer weight. |
| `MeshRoundTrip.StackAt` | plugins/mesh-shift/plugin.go:193-281 | After any stack of shifts and its restoration every entry is what it was, or what the log kept of it. |
| `MeshRoundTrip.RoundTrip` | plugins/mesh-shift/plugin.go:136-169 | One shift and its restoration give back the route, and the shifted route again has only weights the log can hold. |
| `MeshRoundTrip.RestoreAt` | plugins/mesh-shift/plugin.go:255-279 | A restored entry depends only on the log entries for its own position. |
| `MeshPlugin.MeshShiftIsLawful` | plugins/mesh-shift/plugin.go:76-169 | Execute and Reverse meet the executor's undo law on routes with absent or integer weights, for any decoding of parameters and any updates refused to Execute, when Reverse's own calls get through. |
| `MeshPlugin.MeshShiftIsLawfulExactly` | plugins/mesh-shift/plugin.go:76-169 | They meet it if and only if no success Execute can report has its reversal blocked. |
| `MeshPlugin.ExecuteOutcome` | plugins/mesh-shift/plugin.go:76-133 | A successful execution overrode something on an existing route and logged it; any other leaves the routes alone. |
| `MeshPlugin.ExecutesExactly` | plugins/mesh-shift/plugin.go:76-133 | Execute succeeds if and only if the named route is there, some entry of the backend is not at the weight and the update is not refused; it is skipped if and only if all entries of the backend, and there are some, are at the weight; otherwise it fails. |
| `MeshPlugin.ReverseRestores` | plugins/mesh-shift/plugin.go:136-169 | Reverse, applied to the logged result right after and let through, restores the routes. |
| `MeshPlugin.ReversesExactly` | plugins/mesh-shift/plugin.go:136-169 | Reverse fails if and only if there is no log, no route name in it, or the rules are no list; a route that is gone needs nothing; no other route is touched. |
| `MeshReplay.MeshTriggerReverts` | internal/controller/actionaudit_controller.go:317-352 | Any trigger of mesh.shift actions, split at any gate, over any targets and rolled back in any of its halves, is undone by one revert whose calls get through. |
| `MeshReplay.MeshShiftIsReplayable` | plugins/mesh-shift/plugin.go:247-281 | mesh.shift writes fixed weights back: an undone shift stays undone, and what one restoration makes equal stays equal after any other. |
| `MeshReplay.RouteStaysEqual` | plugins/mesh-shift/plugin.go:247-281 | Two routes that a log makes equal are made equal by it after any other log, too. |
| `AnnotatePlugin.UndoneExactlyWhenKeyWasAbsent` | plugins/k8s-annotate/plugin.go:64-141 | k8s.annotate is undone by its Reverse if and only if its non-empty key was absent before; otherwise the key is removed and the previous value lost. |
| `AnnotatePlugin.AnnotatesExactly` | plugins/k8s-annotate/plugin.go:64-115 | An execution succeeds if and only if the object is there, everything can be read, the update is not refused and the key is new or may be overwritten; then exactly this annotation changes; an existing key that may not be overwritten is skipped. |
| `AnnotatePlugin.RemovesExactly` | plugins/k8s-annotate/plugin.go:115-141 | Reverse fails if and only if the result names no key; otherwise exactly this annotation is removed, if it is there. |
| `SlidingWindow.Window.Observe` | internal/prometheus/evaluator.go:69-84 | The new map and the elapsed time: zero on the first crossing or when not crossed, otherwise the time since. |
| `SlidingWindow.Window.Forget` | internal/prometheus/evaluator.go:86-90 | Drops this key only. |
| `SlidingWindow.TimestampIsStreakStart` | internal/prometheus/evaluator.go:56-90 | After any interleaving over any keys, the map holds a key exactly while its operations end in an all-crossed streak, with the time of the first sample of the longest one. |
| `SlidingWindow.ObserveReportsStreak` | internal/prometheus/evaluator.go:67-84 | Observe answers how long ago the streak that includes this sample began. |
| `SlidingWindow.SustainedMeansCrossedThroughout` | internal/controller/reactivepolicy_controller.go:188-189 | A sustained crossing means that since some sample at or before now - duration every sample was crossed and the key was never forgotten. |
| `TriggerSamples.TriggerWasSustained` | internal/controller/reactivepolicy_controller.go:182-204 | If an evaluation of any run triggers at t, an earlier one at or before t - duration saw the metric crossed, and so did it and every one in between that compared a value; no query failed and the operator did not go down in between. |
| `TriggerSamples.OpenWindowWasCrossed` | internal/prometheus/evaluator.go:56-90 | In every reachable state an open window was opened by a crossed sample, and nothing but crossed samples came since. |
| `AuditSink.Sink.RecordTrigger` | internal/audit/sink/postgres/postgres.go:81-91 | Ignored when empty, accepted at the end of the queue when there is room, refused when full; a closed queue panics. |
| `AuditSink.Sink.RecordRevert` | internal/audit/sink/postgres/postgres.go:94-104 | The same for revert batches. |
| `AuditSink.Sink.Drain` | internal/audit/sink/postgres/postgres.go:124-139 | The worker's loop on a closed queue hands over everything that was accepted, in order, and exits. |
| `AuditSink.AcceptedReachTheWriterInOrder` | internal/audit/sink/postgres/postgres.go:65-139 | Over any interleaving of producers, worker and Close: accepted batches are those handed to the writer, then the one in hand, then the queued ones, in acceptance order; the queue fits; once the writer is closed all were handed over. |
| `AuditSink.ClosedSinkDrains` | internal/audit/sink/postgres/postgres.go:108-122 | From every reachable closed state the worker's own steps lead to everything handed over and Close free to close the writer. |
| `AuditSink.ClosedStaysClosed` | internal/audit/sink/postgres/postgres.go:109 | After the queue is closed nothing is accepted any more. |
| `Rbac.AggregatePermissions` | internal/action/rbac.go:30-67 | The loops over plugins, rules, verbs and buckets compute the sorted merge of all rules. |
| `Rbac.DedupeSort` | internal/action/rbac.go:75-87 | The members of the list, each once, in increasing order. |
| `Rbac.SetToSorted` | internal/action/rbac.go:89-96 | The members of the set in increasing order, whatever order the map gives them in. |
| `RbacExact.AggregateIsExactExactly` | internal/action/rbac.go:30-67 | For given groups and resources, the aggregate grants exactly the (group, resource, verb) triples of the rules for every choice of verbs if and only if rules that share a key reach the same resources of the same groups. |
| `RbacExact.AggregateIsExact` | internal/action/rbac.go:30-67 | The aggregate grants exactly what the rules grant when their keys tell them apart. |
| `RbacExact.WellNamedKeysTell` | internal/action/rbac.go:37 | Well-named rules are told apart by their keys. |
| `RbacMerge.AggregateIsCanonical` | internal/action/rbac.go:50-66 | The aggregate is sorted by its joined groups and then its joined resources, holds one rule per scope with exactly the verbs asked for in it, and no two rules share groups and resources. |
| `RbacMerge.AggregateIgnoresOrder` | internal/action/rbac.go:33-48 | Two lists with the same rules, in any order and with any repetition, have the same aggregate. |
| `RbacMerge.AggregateIsIdempotent` | internal/action/rbac.go:30-67 | Aggregating the aggregate changes nothing. |
| `Sorting.LessExactly` | internal/action/rbac.go:58-66 | The order of strings: a proper prefix, or the smaller character where they first differ. |
| `RbacExact.EmptyGroupsLeakVerbs` | internal/action/rbac.go:37 | Any list with a rule without groups and a rule for the core group on the same resources is aggregated wrongly for some choice of verbs. |
| `PolicyValidation.Validate` | internal/webhook/v1alpha1/reactivepolicy_webhook.go:92-104 | Reports every fault and nothing else; admitted exactly when timings are in bounds, there is at most one gate, and every plugin is registered, accepts its parameters and is reversible or allowed not to be. |
| `PolicyValidation.ValidateActions` | internal/webhook/v1alpha1/reactivepolicy_webhook.go:136-171 | The loop over actions reports exactly the second gates, unknown plugins, refused parameters and irreversible plugins. |
| `PolicyValidation.ValidateTimings` | internal/webhook/v1alpha1/reactivepolicy_webhook.go:123-134 | Reports exactly the cooldown and timeout faults. |
| `PolicyValidation.ValidateObserve` | internal/webhook/v1alpha1/reactivepolicy_webhook.go:106-121 | Reports exactly the source, duration and poll interval faults. |
| `PolicyValidation.HeldHalfHasNoOtherGate` | internal/webhook/v1alpha1/reactivepolicy_webhook.go:143-153 | In an admitted policy no action but the gated one requires approval. |
| `PolicyValidation.AdmittedConfigIsValid` | internal/controller/reactivepolicy_controller.go:323-408 | An admitted policy, with the controller's defaults filled in as they are, meets the hypotheses of the run theorems. |
| `PolicyValidation.AdmittedTriggerReverts` | internal/webhook/v1alpha1/reactivepolicy_webhook.go:165-168 | A policy admitted without the irreversibility opt-out, over lawful plugins: one revert undoes a whole trigger, if no rollback came before or the plugins are replayable. |
| `ObjectStore.Store.OthersBeforePolicyCall` | internal/controller/reactivepolicy_controller.go:72-84 | Whatever others do between two calls of a policy reconcile leaves its position, the window, the limiter and the set of records as they were. |
| `ObjectStore.Store.OthersBeforeAuditCall` | internal/controller/actionaudit_controller.go:71-80 | Whatever others do between two calls of an audit reconcile leaves its position as it was. |
| `ObjectStore.Store.List` | internal/controller/ratelimit.go:80-93 | A list yields the trigger times of the stored records, each once: counting it after any cutoff is the protocol's count. |
| `PolicyReconciler.Reconciler.Reconcile` | internal/controller/reactivepolicy_controller.go:72-204 | The imperative reconcile, with arbitrary answers and interference, is exactly the protocol's steps in order. Its evaluation's step is `RunReverts.Faithful` and leaves the cluster as the protocol's step does; what runs starts with the first action and stops in front of the gate; and it triggers only if every reading since one at least the duration ago was past the threshold, operator by operator. |
| `PolicyReconciler.Reconciler.CheckGate` | internal/controller/reactivepolicy_controller.go:94-116 | Gate 0: quiet exactly while the policy refers to a gate that is Pending or cannot be read; otherwise the reference is dropped. |
| `PolicyReconciler.Reconciler.ObserveMetric` | internal/controller/reactivepolicy_controller.go:118-189 | Gates 1 and 2, the query and the window: what is remembered, when to come back, and that a sustained crossing means readings past the threshold throughout. |
| `PolicyReconciler.Reconciler.WithinLimit` | internal/controller/reactivepolicy_controller.go:130-144 | Gate 2: a cached count younger than the poll interval decides, otherwise a successful list with fewer than the cap in the last hour. |
| `PolicyReconciler.Reconciler.Query` | internal/controller/reactivepolicy_controller.go:150-189 | With numbers to compare, the window holds the policy afterwards if and only if value > threshold, >=, <, <=, == or != as the operator says, and never for an unknown one; sustained means that it has for the duration. A failed query forgets, a missing client or threshold changes nothing. |
| `PolicyReconciler.Reconciler.ResolveTargets` | internal/controller/reactivepolicy_controller.go:337-374 | Every kind's listing in order: exactly the objects listed, refused when the selector is bad, one listing fails or there are too many. |
| `PolicyReconciler.ListingsAddUp` | internal/controller/reactivepolicy_controller.go:348-368 | Listings add up in the order of the kinds, and one that fails spoils them all. |
| `PolicyReconciler.Reconciler.Trigger` | internal/controller/reactivepolicy_controller.go:211-305 | Refuses on unresolved targets; otherwise runs the half in front of the gate over the resolved targets, or once on the namespace, and records it; nothing runs if the first action waits, and no target gets more results than there are actions in front of the gate. |
| `PolicyReconciler.Reconciler.RunFirstHalf` | internal/controller/reactivepolicy_controller.go:237-255 | Starts with the first action on the first target, unless that action waits, and ends in front of the gate, or at the end of the pipeline. |
| `PolicyReconciler.Reconciler.BuildAudit` | internal/controller/auditwriter.go:36-124 | The record of a trigger, field by field: numbered records that read back as the results, the held plugins from the gate on, the frozen targets and the expiry. |
| `PolicyReconciler.Reconciler.RecordTrigger` | internal/controller/reactivepolicy_controller.go:265-304 | From the create call to the end of the reconcile, for an ungated, a gated and an unrecorded trigger. |
| `PolicyReconciler.Reconciler.MarkPending` | internal/controller/auditwriter.go:129-135 | The write that alone makes the record a gate; only if it lands is the limiter bumped and the reference set. |
| `PolicyReconciler.Reconciler.EndGated` | internal/controller/reactivepolicy_controller.go:271-286 | After marking: refer to the gate and count the trigger only if the mark landed; the window is forgotten either way. |
| `PolicyReconciler.Reconciler.EndUngated` | internal/controller/reactivepolicy_controller.go:289-304 | The cooldown starts whether or not the record was created; the count is bumped only if it was. |
| `PolicyReconciler.Reconciler.GateStillOpen` | internal/controller/reactivepolicy_controller.go:310-320 | A gate is open exactly while its record is stored and Pending. |
| `PolicyReconciler.Reconciler.Requeue` | internal/controller/reactivepolicy_controller.go:376-384 | Writes the status back: an error exactly when the call fails, an immediate retry exactly when the policy moved on since it was read, otherwise the given delay. |
| `PolicyReconciler.EvaluationInParts` | internal/controller/reactivepolicy_controller.go:118-204 | The protocol's evaluation step is gates, window and trigger, in the code's order. |
| `AuditReconciler.Reconciler.Reconcile` | internal/controller/actionaudit_controller.go:71-104 | The imperative reconcile of one record, with arbitrary answers and interference, is exactly the protocol's steps in order, and touches the cluster as the record it read asks for: its decision's and its release's steps are `RunReverts.Faithful` and leave the cluster as the protocol's do. |
| `AuditReconciler.Reconciler.Decide` | internal/controller/actionaudit_controller.go:82-103 | Retention first, then an open gate, whose release starts with the gated action, then a revert request, which replays the whole record. |
| `AuditReconciler.Reconciler.ResolveOpenGate` | internal/controller/actionaudit_controller.go:111-133 | Release, close as denied or expired, or wait; the held half runs only on an approval, from the gated action on. |
| `AuditReconciler.Reconciler.Release` | internal/controller/actionaudit_controller.go:138-231 | Runs the held half only when the policy is there and has the UID the gate was opened for, if it has one; its first result is the execution of the action at the gate's index on the first recorded target; the step is the protocol's. Otherwise closes or gives up. |
| `AuditReconciler.Reconciler.RunHeld` | internal/controller/actionaudit_controller.go:163-186 | The held half: the first result is the execution of the gated action on the first recorded target, or on the namespace alone, and no target gets more results than there are actions from the gate on. |
| `AuditReconciler.Reconciler.RecordRelease` | internal/controller/actionaudit_controller.go:188-222 | The release's three writes, each only after the one before landed. |
| `AuditReconciler.Reconciler.AppendSkipped` | internal/controller/actionaudit_controller.go:236-246 | One Skipped record per held plugin, numbered on, with the reason, behind the ones there are. |
| `AuditReconciler.Reconciler.Close` | internal/controller/actionaudit_controller.go:235-287 | Records the held actions as skipped, ends the phase and starts the cooldown, each only after the one before. |
| `AuditReconciler.Reconciler.StartCooldown` | internal/controller/actionaudit_controller.go:292-301 | The policy as it was read, with the decision's time and without its reference, is what is stored if the write lands; a lost write is dropped. |
| `AuditReconciler.Reconciler.RevertRecord` | internal/controller/actionaudit_controller.go:319-352 | Replays the undo over the whole record, then marks it reverted. |

## Left out

- The Kubernetes client, informer caches, leader election and manager wiring: replaced by a versioned store whose writes land, conflict or fail.
- A failed read at the very start of a reconcile, and the forgetting of window and limiter when the policy is gone: nothing happened yet, and the policy exists throughout a run.
- More than one policy at a time: all state of the protocol is per policy; that keys never collide is proved.
- Changes of a policy's spec while a run lasts, so also a pipeline shortened below the gate index of an open gate: both reconcilers run the pipeline the gate was opened for, and the release is proved to start inside it.
- Conditions, state strings, log messages and metrics: reporting only.
- The metric source's HTTP client, parsing of thresholds and formatting of numbers: a value is a real number with any text, or a failure.
- Templates, label selectors, JSON decoding of parameters and the posting of notifications: plugins are arbitrary functions on a state, with Details as a lossless value.
- The internals of argocd.suspend and network.isolate, and Validate of each plugin.
- The CLI, the Helm chart, the CRD schema and generated code: the CLI's decisions and revert requests are client steps.
- SQL beyond insert-or-ignore on (audit uid, action index), and the table of revert outcomes.
- Parsing of the retention text: retention is a number of seconds.
- resourceNames and nonResourceURLs of permission rules, which the merge drops; and the order sort.Slice gives rules with equal sort keys, which well-named rules never have.
- Integer widths: counters and indices are unbounded; a pipeline's length times its targets stays far below the 32-bit bound.
- PolicyReconciler.Reconciler.Requeue: that the reconcile is run again after the delay is not modelled.
- PolicyReconciler.Reconciler.Reconcile: others act before each of its six calls, not between the list of records and the query, target lists and plugin calls that follow it, which read no shared object; a restart in its middle is left to the protocol.
- AuditReconciler.Reconciler.Reconcile: the sink call after a write is part of that write's step, the delay until the next reconcile is not returned, and a restart in its middle is left to the protocol.
- RunReverts.RevertUndoesTrigger: asks that nothing else touches the cluster between the trigger and the revert, no second trigger, no other release and no other revert; what interleaved changes of the same objects leave behind is up to the plugins.
- AuditSink.Sink.Drain: runs without producers in between; every interleaving with them is covered by the step system of the same module.
- ResolvedGate.GatedCooldown: promises duration less the delay with which a reconcile looks at the gate after taking its time, because the window may be opened with that earlier time; QuietBound.QuietPeriodExactly shows that this is all that calm runs keep.
- CapThreshold.RollingCapExactly: does not say how far beyond the cap plus one an unguarded policy can get.
