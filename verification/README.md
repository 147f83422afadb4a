# Verified model of ctrlrtn

ctrlrtn is a gateway between applications and model providers. It admits requests under spend ceilings,
records every call, serves live A/B tests of cheaper models, mirrors traffic to shadow candidates, and
gathers the evidence on which a switch is authorised. This project models the parts of it that decide,
reserve, count, judge and print, and proves what they guarantee. Run `dafny verify dfyconfig.toml` to check it.

## How the model is organised

- **Admission.** `Pricing` and `Budget` are the price of a call and the budget gate; `BudgetDecisions` says
  exactly what the gate answers and `BudgetSafety` proves the ceilings over whole runs. `Recorder`,
  `RecorderSafety` and `RecorderOrder` are the trace recorder as a step machine, exactly-once settlement, and
  the order and the losses of its queue. `Proxy` is the request handler, `ProxyDecisions` when it sends and
  what it answers, and `Headers` the two ways in which it reads a request's headers. `AdmissionSystem` joins the gate and the
  recorder: every reservation belongs to a call in flight or to a trace still held. `GatewaySystem` runs
  whole calls through handler, gate and recorder; `GatewaySafety` derives what `AdmissionSystem` asks of its
  callers and proves the ceilings.
- **Serving.** `Policies`, `Serving` and `ServingSafety` are the live router with its bounded table of bound
  tasks, and `ServingDecisions` its split and its rules; `ControlStore` and `StoreOperations` hold experiments,
  shadows and routes; `ServingControl` composes them, so that the
  divergence ceiling rests on nothing assumed about the snapshots.
- **Evidence.** `Wilson`, `WilsonScore`, `Tripwire` and `TripwireVerdicts` bound the failure-rate gap and say
  when each verdict is given; `Ranks`, `Calibration` and `CalibrationLaws` are the judge's calibration;
  `NonInferiority`, `PairedTest`, `LowerQuantile`, `Judge` and `Replay` lead to the paired verdict. `Reals`
  holds small facts about real numbers.
- **Printers and parsers.** `Identity`, `IdentityRules`, `ToolOperation` and `Text`; `Manifest`, `ManifestSafety` and
  `ManifestLaws`; `ControlTree`, `ControlConfig` (loading), `ControlRender`, `ControlEntries`,
  `ControlSections`, `ControlRoutes`, `ControlRoundTrip`, `ControlAccepted`, `ControlKeys` and `ControlDecisions`
  (what is accepted, and as what); `Proposal`, `ProposalNames` and `ProposalSafety`. `Sorting` is the stable sort and
  its laws.
- **Bookkeeping.** `Shadow` (attrition counters), `ShadowLife` (one mirror), `Inference` (workflow edges),
  `InferenceScores` (their evidence) and `InferenceCycles` (when they can form a cycle).

An object that changes in place is a class whose methods are proved equal to a step or decision function;
the theorems are about that function over whole runs. Money, scores and timestamps are `real`; a square root
is a number `s` with `s >= 0 && s * s == x`; normal quantiles are arbitrary, and so is the `cdf` into
[0, 1]; hashes are arbitrary functions. Each clock reading, random draw, upstream answer and storage result
is an input, so a theorem over all runs is a theorem over all of them.

## Where the code and its promises part

- `docs/configure.md:189-190` says that a failed persistence keeps a reservation until restart. The
  recorder's discard observers settle it (`recorder/recorder.py:154-156`, `gateway/app.py:82-96`); the model
  follows the code.
- A producer still waiting when shutdown drains the queue can put its trace where no worker reads it
  (`RecorderSafety.LatePutIsStranded`). Shutdown settles everything exactly once if and only if no producer
  waits when the drain starts (`RecorderSafety.CleanShutdownIff`).
- A write that fails in the middle of a shadow flush, or that shutdown cancels there, forgets the drops of the
  shadows behind it (`Shadow.FlushFailureForgets`, `CancelledFlushForgets`). Over whole runs, all drops stay
  counted if and only if each such write found at most its own entry left (`Shadow.AllDropsCountedIff`).
- Inferred edges are acyclic between traces, but not between step runs (`Inference.InterleavedRunsMayCycle`):
  runs of one version each are free of cycles, for all tool ids, if and only if no two of them interleave
  (`InferenceCycles.RunsAcyclicIff`).
- A proposed step name may be one that no application can report as its step
  (`ProposalSafety.NameIsIdentifierIff`).
- A body that names no model passes the gate before any ceiling is looked at (`policy/budget.py:300-302`), and
  its response can still name a priced model.
- The gate reads the route and session headers live, where the first of repeated lines counts
  (`policy/budget.py:304-309`); the trace is charged by the copy it keeps, a dictionary in which the last line
  wins (`gateway/proxy/handler.py:86`, `recorder/redaction.py:44-51`). A request that repeats one of the two
  headers can pass a ceiling (`GatewaySafety.RepeatedRouteEscapes`, `RepeatedSessionEscapes`). `Headers.ReadingsAgreeIff`
  says when the readings agree, `GatewaySafety.ReservationCountsIff` when the reservation counts where the trace is
  charged, and `GatewaySafety.AdmittedUncoveredIff` which calls admitted without a reservation can be charged.
- A provider that reports more cached than prompt tokens is billed a negative amount
  (`telemetry/usage.py:133-142`, `Pricing.OvercachedReportIsCredited`).
- A call cancelled while its request is being sent, or before its response is first read, hands no trace over
  (`except Exception` at `gateway/proxy/handler.py:415` does not catch a cancellation), so its reservation
  stays until restart. With every call ended and the recorder empty, those are the only reservations left
  (`GatewaySystem.LiveReservationsAre`, `CapacityReturnsIff`).

## Model

| member | source | states |
|---|---|---|
| BudgetSafety.CeilingSafety | src/ctrlrtn/policy/budget.py:289-435 | In every run of checks and settlements, over any day changes and clock movements, recorded plus reserved spend stays within the global ceiling, every use-case ceiling and every session ceiling at once, provided each charged trace settles its own reservation at no more than the reserved amount. |
| BudgetSafety.AdmissionExact | src/ctrlrtn/policy/budget.py:289-435 | Under reservation a paid request is admitted, holding exactly its worst-case cost, if and only if its cost can be computed, its session cost is known, no fallback is due, and every ceiling it touches has room for it. |
| BudgetSafety.ExceededIsJustified | src/ctrlrtn/policy/budget.py:316-435 | An over-budget refusal names a ceiling that touches the request, with the gate's own figures, and that ceiling is full or the worst-case cost does not fit it. |
| BudgetSafety.OnlyReservingHolds | src/ctrlrtn/policy/budget.py:289-435 | A refusal, or an admission that reserves nothing, leaves the live reservations and the id counter unchanged; a reserving admission adds exactly one under a fresh id. |
| BudgetSafety.SettlementIsExact | src/ctrlrtn/policy/budget.py:280-287 | Settling lowers what is held against each ceiling by exactly the named reservation and records exactly its cost. |
| BudgetSafety.RecordingIsExact | src/ctrlrtn/policy/budget.py:136-158 | A cost is added once to each ceiling it is charged to; a trace of another day than the clock's adds nothing to the daily totals. |
| BudgetSafety.ReservingIsExact | src/ctrlrtn/policy/budget.py:266-278 | A reservation adds exactly its amount to each ceiling it names and nothing to the others. |
| BudgetSafety.AdmissionKeepsInv | src/ctrlrtn/policy/budget.py:289-435 | A check keeps every ceiling, the freshness of ids and the non-negativity of reservations, whatever it answers. |
| BudgetSafety.SettlementKeepsInv | src/ctrlrtn/policy/budget.py:283-287 | A settlement of an own reservation keeps every ceiling. |
| BudgetSafety.UnreservedSpendBreaksCeiling | src/ctrlrtn/policy/budget.py:283-287 | The hypothesis is needed: a concrete trace without a reservation takes the gate over its ceiling. |
| Budget.BudgetGate.constructor | src/ctrlrtn/policy/budget.py:243-248 | A new gate holds nothing and hands out ids from one. |
| Budget.BudgetGate.Check | src/ctrlrtn/policy/budget.py:289-435 | The stateful check answers and changes the gate exactly as the admission decision of the safety theorems, whose answer `BudgetDecisions.AdmittedIff` fixes with and without reservations. |
| Budget.BudgetGate.Observe | src/ctrlrtn/policy/budget.py:283-287 | Settlement by the object is the settlement of the safety theorems. |
| Budget.BudgetGate.SumReserved | src/ctrlrtn/policy/budget.py:253-264 | The loop over live reservations computes the amount held against a ceiling. |
| Budget.SpendSnapshot.Record | src/ctrlrtn/policy/budget.py:136-158 | Daily totals, session totals and unknown-cost sessions change as recording prescribes, including traces without a cost or from another day. |
| Budget.SpendSnapshot.RollOver | src/ctrlrtn/policy/budget.py:100-105 | Another UTC day clears the daily totals and keeps the session totals. |
| Budget.SpendSnapshot.Seed | src/ctrlrtn/policy/budget.py:114-124 | The day's totals are replaced by the stored ones. |
| Budget.SpendSnapshot.Totals | src/ctrlrtn/policy/budget.py:160-164 | Totals are read for the day of the clock. |
| Pricing.ReservationCoversCost | src/ctrlrtn/policy/budget.py:205-237 | The reserved amount is at least the billed cost at the same price, however input tokens split into uncached, cache-read and cache-write, as long as they fit the body bytes plus the allowance and the output fits its bound. |
| Pricing.OpenAiUsageFitsIff | src/ctrlrtn/telemetry/usage.py:129-142 | An OpenAI report fits the reservation if and only if nothing in it is negative, it has no more cached than prompt tokens, and prompt and completion are within the two bounds. |
| Pricing.OvercachedReportIsCredited | src/ctrlrtn/telemetry/usage.py:129-142 | That is not enforced: a report of more cached than prompt tokens has a negative bill. |
| Pricing.FamilyIsLongestPrefix | src/ctrlrtn/telemetry/pricing.py:128-142 | The price found for a model is that of its longest matching family prefix, which is unique, so the order of the price table never matters. |
| Pricing.MatchesIff | src/ctrlrtn/telemetry/pricing.py:128-142 | A model belongs to a longer family name only if it goes on after it with a dash or an underscore. |
| BudgetDecisions.AdmittedIff | src/ctrlrtn/policy/budget.py:289-435 | The gate's answer, with and without reservations: a request is admitted if and only if it names no model, or no ceiling is over it, or its session is there and of known cost, no fallback is due, every ceiling over it has some spend left today, its upstream is free or its model priced, and, where reservations are on, its worst-case cost is known and fits. It reserves exactly then, and exactly that cost. |
| BudgetDecisions.RefusalReasons | src/ctrlrtn/policy/budget.py:289-435 | Which refusal is given, reason by reason, in terms of the ledger and the request. |
| BudgetDecisions.UnknownExactly | src/ctrlrtn/policy/budget.py:136-158 | A session's cost becomes unknown through exactly one kind of trace: one without a cost that did reach a paid provider. |
| BudgetDecisions.UnknownCostClosesSession | src/ctrlrtn/policy/budget.py:289-435 | After such a trace no request of that session that names a model is ever admitted again, however long the gate runs and whatever it settles. |
| BudgetDecisions.DayIs | src/ctrlrtn/policy/budget.py:97-105 | A day is the half-open stretch of 86400 seconds from a multiple of 86400. |
| BudgetDecisions.SeededShows | src/ctrlrtn/cli/runtime.py:60-76 | A gate starts from the day's persisted totals, and from the persisted sessions exactly when sessions have a ceiling. |
| Pricing.CostKnownIff | src/ctrlrtn/telemetry/pricing.py:169-187 | A cost is unknown exactly for a paid call without a price or a usage; a free call costs nothing. |
| Pricing.MillionTokensCostTheirRate | src/ctrlrtn/telemetry/pricing.py:169-187 | A million tokens of one kind cost that kind's rate: input, output, cache read and cache write each their own. |
| Pricing.BillsAdd | src/ctrlrtn/telemetry/pricing.py:169-187 | Two usages billed together cost what they cost apart, so the rates of a million tokens fix every bill. |
| Pricing.OutputBoundIs | src/ctrlrtn/policy/budget.py:205-237 | The output bound is the larger of the request's caps, the catalogue's cap only when there is none, and nothing when a cap is malformed. |
| Pricing.ReservationIsTight | src/ctrlrtn/policy/budget.py:205-237 | No smaller reservation would do: some usage within the bounds costs exactly the reserved amount. |
| RecorderSafety.ExactlyOnceIff | src/ctrlrtn/recorder/recorder.py:90-210 | For every interleaving up to and after shutdown: each trace handed over is settled exactly once, by saving or by discarding, if and only if no put is accepted after the drain and no producer is still waiting. |
| RecorderSafety.CleanShutdownIff | src/ctrlrtn/recorder/recorder.py:104-210 | The same as something shutdown can check: when the drain is about to run, every continuation without restarts and new hand-overs settles each trace exactly once if and only if no producer is waiting. |
| RecorderSafety.SettledOrHeld | src/ctrlrtn/recorder/recorder.py:90-210 | After any run a trace is settled at most once per hand-over, and exactly once unless the recorder still holds it. |
| RecorderSafety.StepConserves | src/ctrlrtn/recorder/recorder.py:90-210 | No step of a producer, of the worker or of shutdown loses or copies a trace. |
| RecorderSafety.RunConserves | src/ctrlrtn/recorder/recorder.py:90-210 | Over a whole run, what was handed over is what is held plus what was settled. |
| RecorderSafety.RunTidy | src/ctrlrtn/recorder/recorder.py:142-210 | The queue stays within its size and the join counter counts exactly the queued traces and the one being saved. |
| RecorderSafety.RunEnrichesOnce | src/ctrlrtn/recorder/recorder.py:142-181 | Each trace is enriched once: by the worker or when it is dropped unenriched, never twice. |
| RecorderSafety.ClosedQueueOnlyFills | src/ctrlrtn/recorder/recorder.py:187-210 | After the worker is gone the queue holds exactly the puts accepted since. |
| RecorderSafety.LatePutIsStranded | src/ctrlrtn/recorder/recorder.py:104-140 | The exception is real: with a queue of one, a producer waiting when the drain frees its slot puts its trace where no worker reads. |
| RecorderOrder.FirstComeFirstSaved | src/ctrlrtn/recorder/recorder.py:90-210 | Whatever interleaves, traces leave the queue in exactly the order in which they entered it. |
| RecorderOrder.SavedIff | src/ctrlrtn/recorder/recorder.py:142-158 | A trace counts as saved exactly when the store accepted it from the worker; anything else settled in a step was lost. |
| RecorderOrder.LossesAreCounted | src/ctrlrtn/recorder/recorder.py:90-217 | Over any run, the traces lost are those refused by a full queue, those whose wait was given up, each with its counter, and those interrupted at the worker or in shutdown. |
| Recorder.TraceRecorder.StartWorker | src/ctrlrtn/recorder/recorder.py:60-63 | Starting is idempotent. The new state is the step of the machine the theorems are about. |
| Recorder.TraceRecorder.EnqueueTrace | src/ctrlrtn/recorder/recorder.py:90-102 | A full queue counts the drop and discards; otherwise the trace is queued. The new state is the step of the machine the theorems are about. |
| Recorder.TraceRecorder.BeginImportant | src/ctrlrtn/recorder/recorder.py:104-118 | An important trace is queued at once or waits. The new state is the step of the machine the theorems are about. |
| Recorder.TraceRecorder.ResumeImportant | src/ctrlrtn/recorder/recorder.py:116-119 | A waiting producer is served when there is room. The new state is the step of the machine the theorems are about. |
| Recorder.TraceRecorder.AbandonImportant | src/ctrlrtn/recorder/recorder.py:120-140 | An expired or cancelled wait counts the loss and discards the trace. The new state is the step of the machine the theorems are about. |
| Recorder.TraceRecorder.WorkerTake | src/ctrlrtn/recorder/recorder.py:142-148 | The worker takes the oldest trace and enriches it. The new state is the step of the machine the theorems are about. |
| Recorder.TraceRecorder.WorkerSaved | src/ctrlrtn/recorder/recorder.py:148-158 | A saved trace is observed; a failed save is discarded without enriching again. The new state is the step of the machine the theorems are about. |
| Recorder.TraceRecorder.StopWorker | src/ctrlrtn/recorder/recorder.py:151-153 | Cancelling the worker discards the trace it was saving. The new state is the step of the machine the theorems are about. |
| Recorder.TraceRecorder.DrainQueue | src/ctrlrtn/recorder/recorder.py:203-210 | The drain discards every queued trace, in order, and retires the worker. The new state is the step of the machine the theorems are about. |
| Recorder.TraceRecorder.Discard | src/ctrlrtn/recorder/recorder.py:174-181 | Discarding settles the trace once, enriching it first if asked. The new state is the step of the machine the theorems are about. |
| AdmissionSystem.SystemSafety | src/ctrlrtn/gateway/app.py:82-96 | In every interleaving of arrivals, hand-overs, recorder steps, save failures, full queues, expired waits and shutdown, spend stays within every ceiling, if each charged trace has a reservation that covers it. |
| AdmissionSystem.LiveExactly | src/ctrlrtn/cli/runtime.py:78-92 | Whatever is charged, the live reservations are exactly those of calls in flight and of traces still held. |
| AdmissionSystem.AllCapacityReturns | src/ctrlrtn/cli/runtime.py:78-92 | Once nothing is in flight and nothing is held, no reservation is left, whatever became of the traces and whatever they cost. |
| AdmissionSystem.StepKeepsPlaced | src/ctrlrtn/gateway/app.py:82-96 | Each step of the joined system keeps each live reservation with one call in flight or one held trace. |
| AdmissionSystem.StepKeepsInv | src/ctrlrtn/gateway/app.py:82-96 | Each allowed step keeps the ceilings and the cover of every held trace. |
| AdmissionSystem.SettleOnePlaced | src/ctrlrtn/policy/budget.py:283-287 | Settling one held trace hands its reservation back and leaves the others' alone. |
| AdmissionSystem.SettleOne | src/ctrlrtn/policy/budget.py:283-287 | Settling one held trace keeps the ceilings and leaves every other held trace its cover. |
| AdmissionSystem.SettleMany | src/ctrlrtn/recorder/recorder.py:203-210 | So does settling any number of them, as the drain does. |
| AdmissionSystem.StartIsSafeIff | src/ctrlrtn/cli/runtime.py:60-92 | A gate with nothing reserved and a fresh recorder are a safe start if and only if the policy is valid and the persisted totals are within its ceilings. |
| Budget.OpenGate | src/ctrlrtn/cli/runtime.py:60-76 | Seeding the snapshot, its sessions only under a session ceiling, and opening the gate give the ledger the safe start is about. |
| GatewaySafety.GatewayCeilings | src/ctrlrtn/gateway/proxy/handler.py:86-490 | End to end: in every interleaving of calls through the handler, recorder steps, full queues, failed saves, failed enrichments, cancellations, mirrors and shutdown, recorded plus reserved spend stays within every ceiling, if each paid call is labelled (the ceilings over its recorded use-case and session were checked for that use-case and session) and a reserved call is billed at the price and within the tokens it was reserved for. |
| GatewaySafety.ReservationCountsIff | src/ctrlrtn/policy/budget.py:266-278 | A call's reservation counts against every ceiling its trace is charged to if and only if the call is labelled. |
| GatewaySafety.LabelledAlwaysIff | src/ctrlrtn/telemetry/enrich.py:19-25 | A call is labelled under every policy if and only if its recorded use-case and session, where present, are the checked ones; a call that repeats neither header always is. |
| GatewaySafety.BackedTraceIsOwn | src/ctrlrtn/telemetry/enrich.py:18-54 | The trace of a labelled, fairly billed call has a live reservation that is at least its cost and counts against every ceiling the trace is charged to; one whose enrichment failed costs nothing. |
| GatewaySafety.AskedHolds | src/ctrlrtn/gateway/proxy/handler.py:190-317 | A call past the checks holds a live reservation of its worst-case cost for the use-case and session checked, or is free, or was checked against no ceiling. |
| GatewaySafety.UncoveredChargeIff | src/ctrlrtn/telemetry/enrich.py:18-54 | A completed call without a reservation can be charged against a ceiling if and only if its upstream is paid and a ceiling stands over its recorded use-case or session, or over everything. |
| GatewaySafety.AdmittedUncoveredIff | src/ctrlrtn/policy/budget.py:300-330 | Among the calls the gate admits without a reservation: a paid one whose body names no model is charged if any ceiling stands over it, and a paid one that names a model exactly when a ceiling stands over its recorded use-case, which then is not the checked one. |
| GatewaySafety.RepeatedRouteEscapes | src/ctrlrtn/gateway/proxy/handler.py:86-200 | Both hypotheses on labels are needed: a whole run in which a request with two route headers, naming its model and billed fairly, takes the ceiling of the second route past its limit. |
| GatewaySafety.RepeatedSessionEscapes | src/ctrlrtn/gateway/proxy/handler.py:86-200 | A request with two session headers is reserved under the first and takes the second session past its ceiling. |
| GatewaySafety.GatewayStartsIff | src/ctrlrtn/gateway/app.py:70-96 | A new gateway is a safe start if and only if the policy is valid and reserves, and the persisted totals are within the ceilings. |
| GatewaySystem.LiveReservationsAre | src/ctrlrtn/gateway/proxy/handler.py:89-490 | In every run, whatever the policy, the headers, the bills and the failures, the live reservations are exactly those of open calls, of traces the recorder holds, and of calls cancelled before their response was read. |
| GatewaySystem.CapacityReturnsIff | src/ctrlrtn/gateway/proxy/handler.py:382-439 | With every call ended and the recorder empty nothing is reserved, if and only if no call with a reservation was cancelled before its response was read; nothing is assumed of prices, headers or bills. |
| GatewaySystem.AskedIsArrivals | src/ctrlrtn/gateway/proxy/handler.py:190-245 | The handler's checks are one arrival at the gate, or two of which the first reserved nothing. |
| Headers.ReadingsAgreeIff | src/ctrlrtn/identify/fingerprint.py:76-97 | The recorded use-case (session) is the checked one if and only if the first and the last line of its header say the same, empty lines aside; so always when the header is not repeated. |
| Headers.CopyKeepsLast | src/ctrlrtn/recorder/redaction.py:44-51 | In the copy of the headers that a trace keeps, the last line of a name wins. |
| Proxy.OneRequestOneReservation | src/ctrlrtn/gateway/proxy/handler.py:89-439 | On every path of a call at most one reservation is created and at most one trace handed over, and a recorded call's trace carries exactly the reservation created. |
| Proxy.RefusalHoldsNothing | src/ctrlrtn/gateway/proxy/handler.py:190-317 | The fallback re-check follows only a check that reserved nothing, and a refused call leaves no reservation behind. |
| Proxy.ArmIsAlwaysRecorded | src/ctrlrtn/gateway/proxy/handler.py:89-439 | A recorded call given an experiment arm leaves exactly one trace naming the arm, unless it repeats a ceiling breach already recorded. |
| ProxyDecisions.SelectedIff | src/ctrlrtn/gateway/proxy/handler.py:89-188 | The handler goes on exactly when the hook did not stop the call and named no provider or a compatible one; the hook's body, or the original, then goes to that provider or the call's own, and otherwise the answer is 429 or 502. |
| ProxyDecisions.FinalIs | src/ctrlrtn/gateway/proxy/handler.py:190-245 | The approved fallback, checked again, is what is sent exactly when it is taken; otherwise the first selection, checked once. |
| ProxyDecisions.SentIff | src/ctrlrtn/gateway/proxy/handler.py:89-392 | A request goes upstream exactly when the selection stands, the gate admits it, and a provider-owned credential, if any, is readable and asked for by a trusted host. |
| ProxyDecisions.CredentialsAreGuarded | src/ctrlrtn/gateway/proxy/handler.py:318-392 | What is sent never spends a provider-owned credential for an untrusted host or without its secret, and carries exactly the selected body, arm, upstream and granted reservation. |
| ProxyDecisions.AnswerIs | src/ctrlrtn/gateway/proxy/handler.py:246-392 | Which status answers a call that is not sent, for each refusal of the gate and for each credential fault. |
| ProxyDecisions.TraceOfStopped | src/ctrlrtn/gateway/proxy/handler.py:104-181 | A call stopped before the gate leaves one trace, with its arm and never a reservation: a ceiling breach as the hook asks, a provider that does not fit always. |
| ProxyDecisions.TraceOfRefused | src/ctrlrtn/gateway/proxy/handler.py:246-392 | A call the gate refuses always leaves a trace and holds nothing; one stopped after the gate leaves one exactly if it has an arm or a reservation, which its trace carries home. |
| ProxyDecisions.TraceAfterSend | src/ctrlrtn/gateway/proxy/handler.py:407-490 | A sent call leaves one completed trace; one whose send failed leaves one exactly if it had an arm or a reservation; only a completed trace with a candidate arm or a reservation waits for a queue slot. |
| ProxyDecisions.WaitingIsNotDropped | src/ctrlrtn/gateway/proxy/recording.py:94-107 | A trace that waits is never lost to a full queue. |
| Proxy.HandleBeforeSend | src/ctrlrtn/gateway/proxy/handler.py:89-392 | The handler up to the upstream send: selections, admission, fallback, refusals, in the source's order. |
| Proxy.ChooseUpstream | src/ctrlrtn/gateway/proxy/handler.py:89-188 | The hook's body and arm, its provider override, and the answers that end the call before the gate is asked. |
| Proxy.CheckBudget | src/ctrlrtn/gateway/proxy/handler.py:190-245 | The check, and the second check under an approved fallback when the first one asks for it. |
| Proxy.Finish | src/ctrlrtn/gateway/proxy/handler.py:246-392 | The end of admission: refusal, host and credential checks, or forwarding with the reservation. |
| ServingSafety.TaskCeiling | src/ctrlrtn/gateway/serving.py:163-284 | From its first call on, while it is not evicted, a task belongs to the experiment it first met, with one arm and the right body (the one asked for, or that one with the candidate as its model), at most that experiment's ceiling of candidate bodies and at most one recorded breach, over all refreshes. |
| ServingSafety.BoundTaskCeiling | src/ctrlrtn/gateway/serving.py:163-284 | For a bound task the number of forwarded candidate bodies is exactly the number asked for, cut off at what the ceiling leaves, and the breach is recorded exactly on the first call over it. |
| ServingSafety.EvictedIffCapOthersSince | src/ctrlrtn/gateway/serving.py:394-402 | A bound task is in the table if and only if fewer than cap distinct other tasks were bound since its own last bind. |
| ServingSafety.TableIsRecentSuffix | src/ctrlrtn/gateway/serving.py:394-402 | The table is the cap most recently bound distinct tasks, in order of last bind. |
| ServingSafety.RouterKeepsWorkingSet | src/ctrlrtn/gateway/serving.py:163-284 | The same holds in every run of calls and refreshes of a fresh router. |
| ServingSafety.DowngradeOnlyUnowned | src/ctrlrtn/gateway/serving.py:163-337 | A request that the router puts in an arm, holds at a ceiling or sends along its use-case's route is never downgraded. |
| ServingDecisions.ArmIff | src/ctrlrtn/gateway/serving.py:163-284 | A request is put in an arm, or held at its ceiling, exactly when a running test reaches it; the decision names that test, its task and the model asked for, and each arm's own model and provider. |
| ServingDecisions.BucketDecides | src/ctrlrtn/policy/experiment.py:202-205 | Only the bucket of test and task matters: a request goes to the candidate exactly when its bucket is below the split. |
| ServingDecisions.ShareIsSplit | src/ctrlrtn/policy/experiment.py:178-205 | Of the hundred buckets exactly the lowest `splitPct` send a request to the candidate: none at 0, all at 100. |
| ServingDecisions.RaisingTheSplitKeepsCandidates | src/ctrlrtn/policy/experiment.py:202-205 | Raising the split never takes a task away from the candidate. |
| ServingDecisions.GovernsIs | src/ctrlrtn/gateway/serving.py:190-212 | A step's rule comes before its version's and a version's before its use-case's, and some rule governs exactly when one of the three exists. |
| ServingDecisions.RoutedIff | src/ctrlrtn/gateway/serving.py:163-228 | A request is routed exactly when no test covers it, a rule governs it and its body names another model; the outcome then names that rule, and the body that rule's model. |
| ServingDecisions.RaisedIff | src/ctrlrtn/gateway/serving.py:163-284 | The router raises exactly on a JSON body that is not an object, where a rule or a test of an unbound task reads it, and on a test that cannot run. |
| Serving.BindKeepsLast | src/ctrlrtn/gateway/serving.py:394-402 | The task just bound is in the table, most recent, with its state; the table is within its cap. |
| Serving.ExperimentRouter.Route | src/ctrlrtn/gateway/serving.py:163-284 | The routing method answers and changes the table as the decision the theorems are about. |
| Serving.ExperimentRouter.ServeArm | src/ctrlrtn/gateway/serving.py:229-284 | Binding, ceiling, once-only breach record and arm, in the source's order; `ServingDecisions.ShareIsSplit` fixes which arm. |
| Serving.ExperimentRouter.BindTask | src/ctrlrtn/gateway/serving.py:394-402 | The bind with its eviction loop yields the bounded table of the theorems. |
| Serving.ExperimentRouter.EvictOldest | src/ctrlrtn/gateway/serving.py:399-401 | The eviction loop stops at the cap and removes from the least recently bound end. |
| Serving.ExperimentRouter.Refresh | src/ctrlrtn/gateway/serving.py:112-139 | A refresh replaces the snapshot and nothing else. |
| Serving.ExperimentRouter.constructor | src/ctrlrtn/gateway/serving.py:78-96 | A new router has an empty table. |
| ServingControl.EndToEndCeiling | src/ctrlrtn/gateway/serving.py:112-284 | Store and router together, from empty: whatever operators do between refreshes, a task not evicted meets one experiment and one arm within its ceiling. |
| ServingControl.SnapshotsAreConsistent | src/ctrlrtn/recorder/memory/control.py:64-65 | Every snapshot of a run of the store agrees with one catalogue of experiments. |
| ServingControl.JointRunIsConsistent | src/ctrlrtn/gateway/serving.py:112-131 | So do all snapshots a router sees, however calls, refreshes and store changes interleave. |
| ControlStore.RunKeepsInv | src/ctrlrtn/recorder/memory/control.py:16-133 | In every reachable store ids are unique and each use-case has at most one running experiment, at most one running shadow, and never both. |
| ControlStore.RunningExact | src/ctrlrtn/recorder/memory/control.py:64-65 | The query by use-case neither invents nor loses a running experiment. |
| ControlStore.RunEvolves | src/ctrlrtn/recorder/memory/control.py:16-62 | Experiments are never edited or removed: each keeps its parameters for good. |
| ControlStore.StoppedForGood | src/ctrlrtn/recorder/memory/control.py:42-48 | A stopped experiment never runs again. |
| ControlStore.AdoptionTakesEffect | src/ctrlrtn/recorder/memory/control.py:50-62 | Adoption leaves the experiment stopped and its candidate installed as the exact route of its use-case. |
| StoreOperations.CreateIff | src/ctrlrtn/recorder/memory/control.py:16-40 | A test is created exactly when its id is new and, if it starts running, its use-case is free; then it is added and nothing else changes. |
| StoreOperations.CreateShadowIff | src/ctrlrtn/recorder/memory/control.py:104-118 | Likewise a shadow, with counters at zero. |
| StoreOperations.StopIs | src/ctrlrtn/recorder/memory/control.py:42-48 | Stopping stops the test with the id, if it runs, and touches no other. |
| StoreOperations.StopShadowIs | src/ctrlrtn/recorder/memory/control.py:120-125 | And so does stopping a shadow. |
| StoreOperations.AdoptIff | src/ctrlrtn/recorder/memory/control.py:50-62 | An adoption is carried out exactly when the test exists and the route is its own candidate's; otherwise nothing changes. |
| StoreOperations.IncrementIs | src/ctrlrtn/recorder/memory/control.py:135-151 | Each counter grows by its own amount, only for a known shadow, and no other shadow's counters move. |
| StoreOperations.SettingsAreLast | src/ctrlrtn/recorder/memory/control.py:78-101 | Routes and fallbacks are what was last set for their target, until cleared. |
| ControlStore.Apply | src/ctrlrtn/recorder/memory/control.py:16-151 | Each method of the store object, setters and clearers included, is the event of the machine the invariant is about. |
| ControlStore.ControlMemory.Create | src/ctrlrtn/recorder/memory/control.py:16-40 | Creation is refused on a known id or an occupied use-case, else appends. The new state is the store's step. |
| ControlStore.ControlMemory.Stop | src/ctrlrtn/recorder/memory/control.py:42-48 | The loop stops the running experiment with the id, if any. The new state is the store's step. |
| ControlStore.ControlMemory.AdoptExperiment | src/ctrlrtn/recorder/memory/control.py:50-62 | Stopping and installing the route happen together or not at all. The new state is the store's step. |
| ControlStore.ControlMemory.RunningExperiments | src/ctrlrtn/recorder/memory/control.py:64-65 | The comprehension collects the running experiments by use-case. The new state is the store's step. |
| ControlStore.ControlMemory.RunningShadowExperiments | src/ctrlrtn/recorder/memory/control.py:130-133 | The comprehension collects the running shadows by use-case. The new state is the store's step. |
| ControlStore.ControlMemory.CreateShadowExperiment | src/ctrlrtn/recorder/memory/control.py:104-118 | A shadow is refused on a known id or a use-case with a running test. The new state is the store's step. |
| ControlStore.ControlMemory.StopShadowExperiment | src/ctrlrtn/recorder/memory/control.py:120-125 | The loop stops the running shadow with the id, if any. The new state is the store's step. |
| ControlStore.ControlMemory.IncrementShadowStats | src/ctrlrtn/recorder/memory/control.py:135-151 | The counters of one shadow grow by the increments; the others are kept. The new state is the store's step. |
| Wilson.IntervalMonotone | src/ctrlrtn/eval/tripwire.py:70-80 | For a fixed sample size both ends of the Wilson interval rise with the number of failures. |
| Wilson.IntervalBrackets | src/ctrlrtn/eval/tripwire.py:70-80 | The interval lies in [0, 1] and contains the observed proportion; `WilsonScore.IntervalIsScoreTest` fixes its ends. |
| WilsonScore.IntervalIsScoreTest | src/ctrlrtn/eval/tripwire.py:70-80 | The interval is the score test turned round: a proportion x is in it if and only if the observed one is at most z standard errors of x away, `(k/n - x)^2 <= z^2 x (1 - x) / n`. This fixes both ends. |
| WilsonScore.EndsAreKept | src/ctrlrtn/eval/tripwire.py:70-80 | Both ends are themselves proportions that the test keeps. |
| TripwireVerdicts.ClassIs | src/ctrlrtn/eval/tripwire.py:100-160 | A task is contaminated, failed, succeeded, unreported or open exactly by what was reported of it and, failing that, by its age; a score fails exactly below the threshold. |
| TripwireVerdicts.TalliesCountRows | src/ctrlrtn/eval/tripwire.py:241-267 | The tallies of an arm count its rows of each kind. |
| TripwireVerdicts.VerdictIff | src/ctrlrtn/eval/tripwire.py:335-381 | Each verdict exactly: with enough reported tasks in a tried candidate, a gross regression if and only if every completion of the missing outcomes puts the gap above the margin, none if and only if every completion keeps it within, and inconclusive otherwise. |
| Tripwire.VerdictSoundUnderEveryImputation | src/ctrlrtn/eval/tripwire.py:335-381 | Whatever the unreported tasks of both arms really were, the failure-rate gap lies within the reported bounds, so a gross regression is a gap above the margin under every imputation and a clean verdict a gap within it under every one. |
| Tripwire.VerdictStableUnderLateOutcomes | src/ctrlrtn/eval/tripwire.py:335-381 | Reporting the missing outcomes in any way never overturns a gross regression or a clean verdict. |
| Tripwire.BoundsAreAttained | src/ctrlrtn/eval/tripwire.py:204-210 | Both reported ends are ends of an interval that some completion of the missing outcomes itself reports, so narrower bounds would leave one of those out. |
| Tripwire.BoundsEnclose | src/ctrlrtn/eval/tripwire.py:204-210 | An arm's bounds enclose those of each of its completions. |
| Tripwire.ClassificationOverTime | src/ctrlrtn/eval/tripwire.py:100-160 | As time passes a row's class changes only from open to unreported; a ceiling breach is a failure whatever was reported, and contamination beats everything. |
| Ranks.AverageRanks | src/ctrlrtn/eval/calibration.py:257-269 | The nested loops terminate and give each element the number of smaller elements plus half of one more than the number of equal ones. |
| Ranks.AssignTies | src/ctrlrtn/eval/calibration.py:263-268 | One block of ties gets one rank, the other ranks are untouched. |
| Ranks.BlockCounts | src/ctrlrtn/eval/calibration.py:257-269 | In the sorted order a maximal block of ties determines the counts of smaller and equal elements. |
| Ranks.RanksAddUp | src/ctrlrtn/eval/calibration.py:257-269 | Ties or not, n ranks sum to n(n+1)/2. |
| Ranks.RanksDependOnOrderOnly | src/ctrlrtn/eval/calibration.py:257-269 | A strictly increasing rescaling leaves every rank unchanged. |
| Calibration.PearsonInUnit | src/ctrlrtn/eval/calibration.py:272-278 | Pearson's coefficient lies in [-1, 1]. |
| Calibration.SpearmanInUnit | src/ctrlrtn/eval/calibration.py:249-254 | Spearman's coefficient on average-tie ranks lies in [-1, 1]. |
| Calibration.SpearmanIgnoresScale | src/ctrlrtn/eval/calibration.py:249-269 | It is unchanged by a strictly increasing rescaling of the judge's scores. |
| Calibration.CauchySchwarz | src/ctrlrtn/eval/calibration.py:272-278 | The inequality behind the coefficient, for lists of any length. |
| Calibration.RegressionRecoversJudge | src/ctrlrtn/eval/calibration.py:233-246 | A judge that scales and shifts the human differences is reported with exactly that compression and bias, unless the labels have no spread. |
| Calibration.WilsonLowerBelowRate | src/ctrlrtn/eval/calibration.py:221-230 | The one-sided bound is the lower end of the tripwire's interval and never above the rate. |
| Calibration.AlignedMeans | src/ctrlrtn/eval/calibration.py:187-204 | An aligned verdict implies enough directional pairs, a majority of agreements, uncompressed gaps and bounded bias at parity. |
| CalibrationLaws.RanksFollowValues | src/ctrlrtn/eval/calibration.py:257-269 | Larger values have larger ranks and ties share theirs. |
| CalibrationLaws.PerfectCorrelation | src/ctrlrtn/eval/calibration.py:272-278 | The coefficient of a linear relation is 1 when it rises and -1 when it falls. |
| CalibrationLaws.SameOrderCorrelates | src/ctrlrtn/eval/calibration.py:249-254 | Two score lists that order everything alike have rank correlation 1. |
| CalibrationLaws.RegressionIsLeastSquares | src/ctrlrtn/eval/calibration.py:233-246 | The reported line is the least-squares line for any scores: it passes through the two means and leaves residuals that are uncorrelated with the human differences. |
| CalibrationLaws.LineWithoutSpread | src/ctrlrtn/eval/calibration.py:233-246 | Without any spread in the human differences the line has slope 1 and still passes through the means; fewer than two pairs give the neutral line. |
| CalibrationLaws.PairsAreCounted | src/ctrlrtn/eval/calibration.py:136-142 | The counts behind the verdict are the numbers of pairs on which the human prefers a side, and on which both prefer the same side. |
| CalibrationLaws.VerdictIff | src/ctrlrtn/eval/calibration.py:102-204 | Each verdict exactly, with the agreement tested against chance. |
| CalibrationLaws.BoundAboveHalfIff | src/ctrlrtn/eval/calibration.py:221-230 | The lower end of the agreement rate is above one half if and only if the score test rejects one half from above. |
| NonInferiority.LowerBoundWithinDiffs | src/ctrlrtn/eval/ni.py:65-169 | For every seed, resample choice and normal table the lower bound is a resampled mean between the smallest and the largest difference; `LowerQuantile.BoundIsLowerQuantile` says which one. |
| NonInferiority.UnanimousEvidenceDecides | src/ctrlrtn/eval/ni.py:65-110 | With enough units, all differences above the negated margin force non-inferiority and none above forbids it. |
| LowerQuantile.BoundIsLowerQuantile | src/ctrlrtn/eval/ni.py:65-169 | The test takes the lower end: with nothing to correct, at most the share 1 - confidence of the resampled means lies below the bound, and more than that share does not lie above it. |
| LowerQuantile.LowerIsQuantile | src/ctrlrtn/eval/ni.py:134-169 | The same for any quantile asked for. |
| LowerQuantile.BoundIsCorrectedQuantile | src/ctrlrtn/eval/ni.py:134-169 | In general the bound is the resampled means' quantile at the corrected 1 - confidence, from both sides. |
| LowerQuantile.BiasIs | src/ctrlrtn/eval/ni.py:150-155 | The bias is the normal quantile of the share of resampled means below the observed one, and 0 when that share is none or all. |
| LowerQuantile.AdjustedSolves | src/ctrlrtn/eval/ni.py:164-166 | The corrected quantile solves the equation of the accelerated bootstrap. |
| LowerQuantile.AccelerationIs | src/ctrlrtn/eval/ni.py:157-162 | Six times the acceleration, times the 1.5th power of the summed squares, is the summed cubes. |
| LowerQuantile.PowersAdd | src/ctrlrtn/eval/ni.py:159-161 | The summed squares and cubes of a list are the sums of its parts', down to one number's. |
| LowerQuantile.IndexFollows | src/ctrlrtn/eval/ni.py:150-169 | The correction for bias: for increasing normal functions the index falls as more confidence is asked for, and does not fall as more resampled means lie below the observed one. |
| LowerQuantile.MoreConfidenceLowersBound | src/ctrlrtn/eval/ni.py:134-169 | So more confidence never raises the bound. |
| LowerQuantile.AdjustedRisesWithAcceleration | src/ctrlrtn/eval/ni.py:164-169 | The corrected quantile rises with the acceleration. |
| LowerQuantile.AccelerationSign | src/ctrlrtn/eval/ni.py:157-162 | The acceleration has the sign of the summed cubes of the leave-one-out deviations. |
| LowerQuantile.AccelerationFollowsSkew | src/ctrlrtn/eval/ni.py:157-162 | For independent differences it has the sign of their skew. |
| PairedTest.UnitsAreLabels | src/ctrlrtn/eval/ni.py:113-122 | The resampled units are the labels: one unit for each label that occurs, made of exactly the differences that carry it. |
| PairedTest.AnyDrawIsPossible | src/ctrlrtn/eval/ni.py:142-148 | Every draw of units with replacement can be made. |
| PairedTest.DrawsAreUnits | src/ctrlrtn/eval/ni.py:145-147 | And nothing else is drawn: as many units as there are, each one of them. |
| PairedTest.TestRunsIff | src/ctrlrtn/eval/ni.py:79-89 | The test answers exactly for a positive margin, a confidence between 0 and 1, at least a hundred resamples beyond the quantile, and a label for each difference if there are labels. |
| PairedTest.RefusalIs | src/ctrlrtn/eval/ni.py:79-89 | With which refusal: margin first, then confidence, resamples and labels. |
| PairedTest.TestIs | src/ctrlrtn/eval/ni.py:91-110 | It then reports the mean, the number of units, too little power below twenty of them, and a positive verdict exactly when there is a lower bound above the negated margin. |
| NonInferiority.VerdictIsTranslationInvariant | src/ctrlrtn/eval/ni.py:65-169 | Adding c to every difference moves mean and bound by c, so the verdict at margin m becomes the one at m + c. |
| NonInferiority.GroupingPreserves | src/ctrlrtn/eval/ni.py:113-122 | Grouping loses and copies no difference. |
| NonInferiority.GroupUnits | src/ctrlrtn/eval/ni.py:113-122 | The dictionary loop groups values by label in order of first appearance. |
| NonInferiority.MeanOfUnits | src/ctrlrtn/eval/ni.py:125-131 | The accumulating loops compute the mean of all values. |
| NonInferiority.ComputeBcaLower | src/ctrlrtn/eval/ni.py:134-169 | The resampling loop, sort and adjusted index compute the bound of the theorems, with the index in range. |
| Judge.SwappingArmsNegates | src/ctrlrtn/eval/judge.py:94-128 | Exchanging the arms negates the difference, for every judge and even replicate count, and one side is refused exactly when the other is. |
| Judge.PositionBiasCancels | src/ctrlrtn/eval/judge.py:94-128 | A constant bonus for the first position leaves the reported difference as it would be without it. |
| Judge.ScoredIff | src/ctrlrtn/eval/judge.py:94-128 | A pairing is scored exactly when the replicates pair up and both orders get replies on the scale. |
| Judge.QualityIsReported | src/ctrlrtn/eval/judge.py:118-127 | Each arm gets its own score: a judge that measures quality yields each output's own quality. |
| Judge.PreferenceHasSign | src/ctrlrtn/eval/judge.py:84-127 | The difference points to the preferred arm: positive for a judge that scores the candidate higher in both orders, negative for one that scores it lower. |
| Judge.ScoresOnScale | src/ctrlrtn/eval/judge.py:131-145 | Accepted scores are on the scale and identical outputs tie. |
| Judge.JudgePairing | src/ctrlrtn/eval/judge.py:94-128 | The replicate loop gives the mean scores with the position alternating, or the first error; `Judge.QualityIsReported` fixes which arm gets which. |
| Replay.NonInferiorIsEarned | src/ctrlrtn/eval/replay.py:64-159 | A positive verdict implies at most a fifth unusable, at least twenty units, and a bound above the negated margin, at whatever confidence was asked for. |
| Replay.NonInferiorIff | src/ctrlrtn/eval/replay.py:64-159 | A batch is given a positive verdict if and only if some pair was scored, at most a fifth of the samples was unusable, and the paired test of the scored differences has a lower bound above the negated margin. |
| Replay.ReportedIff | src/ctrlrtn/eval/replay.py:64-159 | When a batch is reported at all, and what a report that refuses to conclude says: too little power, no bound, and the mean of what could be scored. |
| Replay.OutcomeIs | src/ctrlrtn/eval/replay.py:89-122 | A sample fails if either replay raises, is blank exactly if both ran and said nothing, and is scored only if both ran and something was said. |
| Replay.DiffsAreQualityGaps | src/ctrlrtn/eval/replay.py:89-127 | With a judge that measures quality every difference is the candidate model's quality minus the baseline model's on one of the samples, under that sample's label. |
| Replay.SamplesAccountedFor | src/ctrlrtn/eval/replay.py:64-159 | Pairings, failures and blanks add up to the samples. |
| Replay.ReasonsFacts | src/ctrlrtn/eval/replay.py:64-159 | The listed failure reasons are distinct, at most five, and present exactly when something failed. |
| Replay.OwnTagsAreFresh | src/ctrlrtn/eval/replay.py:64-159 | Samples without a cluster are never fused into one unit. |
| Replay.RunSamples | src/ctrlrtn/eval/replay.py:64-159 | The batch loop and its tallies: differences, labels, failures, blanks and reasons. |
| Replay.ReplayBatch | src/ctrlrtn/eval/replay.py:64-159 | The whole replay: the batch loop, then the verdict of the theorem, at the given margin and confidence. |
| Shadow.AttritionConserved | src/ctrlrtn/gateway/shadow.py:127-303 | After any run every accepted mirror is queued, with a worker, or counted once as completed, failed or dropped; outcomes never exceed submissions; and all drops are pending, flushing or durable, less those that a failing or cancelled flush forgot. |
| ShadowLife.LifeOfAMirror | src/ctrlrtn/gateway/shadow.py:205-303 | A mirror counts as submitted when sent; then, if its trace is kept, as completed when the candidate answered and as failed when it did not, and otherwise as dropped. The oldest goes first and no other shadow's counters move. |
| ShadowLife.SubmittedIff | src/ctrlrtn/gateway/shadow.py:127-203 | A mirror is accepted exactly when its upstream can be reached and the queue has room; otherwise one drop of its shadow is noted. |
| Shadow.StepConserves | src/ctrlrtn/gateway/shadow.py:127-303 | Each step moves mirrors and drops between their places exactly as its event says. |
| Shadow.RunConserves | src/ctrlrtn/gateway/shadow.py:127-303 | So does every run. |
| Shadow.QueueBounded | src/ctrlrtn/gateway/shadow.py:127-225 | The queue never exceeds its size. |
| Shadow.AllDropsCountedIff | src/ctrlrtn/gateway/shadow.py:109-327 | In any run from a state without drops, every drop of every shadow stays counted, durably or still unflushed, if and only if each failing or cancelled write of a flush found at most its own entry left. |
| Shadow.InitialDropsCountedIff | src/ctrlrtn/gateway/shadow.py:74-327 | The same for every run of a new manager. |
| Shadow.FailingFlushForgetsIff | src/ctrlrtn/gateway/shadow.py:314-327 | One failing write forgets drops exactly when entries of other shadows wait behind it in the flush. |
| Shadow.FlushFailureForgets | src/ctrlrtn/gateway/shadow.py:314-327 | That case is real: a concrete run loses another shadow's drop. |
| Shadow.CancelledFlushForgets | src/ctrlrtn/gateway/shadow.py:109-125 | So is the cancelled case: shutdown cancels the refresh task in the middle of a flush and an entry behind the write under way is gone, though no write failed. |
| Shadow.DropsAllCounted | src/ctrlrtn/gateway/shadow.py:314-327 | A corollary for runs in which no write fails and no flush is cancelled, shadow by shadow. |
| Shadow.RunPositive | src/ctrlrtn/gateway/shadow.py:202-203 | Each unflushed entry stands for at least one drop. |
| Shadow.ShadowManager.SubmitMirror | src/ctrlrtn/gateway/shadow.py:127-200 | An unreachable upstream or a full queue counts a drop; otherwise the mirror is queued. The new state is the machine's step. |
| Shadow.ShadowManager.TakeWork | src/ctrlrtn/gateway/shadow.py:205-213 | A worker takes the oldest mirror. The new state is the machine's step. |
| Shadow.ShadowManager.SubmittedWritten | src/ctrlrtn/gateway/shadow.py:214-225 | The submission is counted, or the mirror dropped when that write fails. The new state is the machine's step. |
| Shadow.ShadowManager.CandidateAnswered | src/ctrlrtn/gateway/shadow.py:227-271 | The candidate call succeeds or fails. The new state is the machine's step. |
| Shadow.ShadowManager.TraceRecorded | src/ctrlrtn/gateway/shadow.py:272-291 | The trace is recorded, refused or the recording raises. The new state is the machine's step. |
| Shadow.ShadowManager.OutcomeWritten | src/ctrlrtn/gateway/shadow.py:291-303 | The outcome is counted, or the mirror dropped. The new state is the machine's step. |
| Shadow.ShadowManager.BeginFlush | src/ctrlrtn/gateway/shadow.py:314-317 | The pending drops are swapped out. The new state is the machine's step. |
| Shadow.ShadowManager.FlushEntry | src/ctrlrtn/gateway/shadow.py:318-327 | One entry is written, or restored and the rest abandoned. The new state is the machine's step. |
| Shadow.ShadowManager.CancelFlush | src/ctrlrtn/gateway/shadow.py:109-125 | A flush under way is abandoned by shutdown, its write landed or not. The new state is the machine's step. |
| Shadow.ShadowManager.IncrementStats | src/ctrlrtn/gateway/shadow.py:290-303 | One shadow's durable row grows. The new state is the machine's step. |
| Inference.EdgesUniquelyAttributed | src/ctrlrtn/workflow/inference.py:116-218 | Every inferred edge joins two different runs of one task and workflow version, from a strictly earlier trace that was the only eligible producer, and each (task, tool id) yields at most one edge. |
| Inference.FirstUseIsReported | src/ctrlrtn/workflow/inference.py:116-218 | The first use of a tool id with exactly one eligible producer is always reported. |
| Inference.TracesAcyclic | src/ctrlrtn/workflow/inference.py:116-218 | Edges between traces never form a cycle. |
| Inference.RunsAcyclicIfSequential | src/ctrlrtn/workflow/inference.py:116-218 | Edges between step runs never form a cycle as long as runs do not interleave, whatever versions they name. |
| InferenceCycles.RunsAcyclicIff | src/ctrlrtn/workflow/inference.py:116-218 | For runs that each keep to one workflow version: the step runs form no cycle for any assignment of tool ids if and only if no two runs interleave, by a pair of eligible traces each way. |
| InferenceCycles.RunsMayCycleIff | src/ctrlrtn/workflow/inference.py:116-218 | For any log at all: some assignment of tool ids makes the step runs cyclic if and only if the eligible pairs of its traces already form a cycle of runs. |
| InferenceCycles.LinkCycleIffInterleaved | src/ctrlrtn/workflow/inference.py:116-218 | Under one version per run a cycle of any length among eligible pairs exists if and only if two runs interleave. |
| Inference.InterleavedRunsMayCycle | src/ctrlrtn/workflow/inference.py:116-218 | Interleaved runs can form one: three concrete traces. |
| Inference.ScoresPartition | src/ctrlrtn/workflow/inference.py:203-218 | True positives and false negatives are the explicit dependencies; true and false positives the distinct inferred pairs with ground truth. |
| InferenceScores.CandidatesAre | src/ctrlrtn/workflow/inference.py:153-161 | The candidates of a use are exactly the traces that could have produced the id. |
| InferenceScores.ConfirmationIs | src/ctrlrtn/workflow/inference.py:172-181 | An edge is confirmed when that dependency was declared, contradicted when only others of its run were, unverified when none was. |
| InferenceScores.DefaultRuns | src/ctrlrtn/workflow/inference.py:128-130 | The runs with declared facts are those given, or those a declared dependency leads to. |
| InferenceScores.AmbiguousExact | src/ctrlrtn/workflow/inference.py:139-164 | The ambiguity figure counts exactly the first uses that more than one trace could have produced. |
| InferenceScores.ScoresAre | src/ctrlrtn/workflow/inference.py:203-210 | True positives are the declared dependencies that some edge found, false negatives those that none did, and false positives the dependencies that contradicted edges stand for. |
| Inference.InferEdges | src/ctrlrtn/workflow/inference.py:116-218 | The loops compute the report of the theorems. |
| Inference.UseTools | src/ctrlrtn/workflow/inference.py:148-202 | The inner loop over one trace's consumed tool ids. |
| Inference.UseTool | src/ctrlrtn/workflow/inference.py:148-202 | One use: already consumed, not exactly one eligible producer, a duplicate, or a new edge. |
| Inference.IndexProducers | src/ctrlrtn/workflow/inference.py:127-137 | The producer index lists, per task and tool id, exactly the traces that produced it, in order. |
| Inference.AddProducer | src/ctrlrtn/workflow/inference.py:131-137 | One trace is added under each tool id it produced. |
| Identity.HeadersRoundTrip | src/ctrlrtn/workflow/identity.py:109-202 | Every valid identity is found again in its own headers: comma join and decimal attempt are undone. |
| Identity.FoundIsFaithful | src/ctrlrtn/workflow/identity.py:162-202 | What is found in any headers is a complete, valid identity saying exactly what they say, and it survives its own headers. |
| Identity.HeaderCarried | src/ctrlrtn/workflow/identity.py:109-125 | Each field's header carries exactly that field, and absent fields have none. |
| Identity.HeaderNamesDistinct | src/ctrlrtn/workflow/identity.py:12-21 | No two fields share a header. |
| Identity.Construct | src/ctrlrtn/workflow/identity.py:73-107 | Construction yields valid identities only. |
| Identity.CarrierRoundTrip | src/ctrlrtn/workflow/identity.py:127-159 | Every valid identity survives its dictionary. |
| Identity.CarrierLosesNothing | src/ctrlrtn/workflow/identity.py:139-159 | An accepted dictionary is reproduced entry by entry by printing what was read. |
| Identity.ConstructEvent | src/ctrlrtn/workflow/identity.py:223-249 | Construction yields valid events only: identifiers, status, finite numbers, outcomes on terminal events. |
| Identity.EventRoundTrip | src/ctrlrtn/workflow/identity.py:251-291 | Every valid workflow event survives its payload, whatever fresh id and clock the reader would use. |
| Identity.EventPayloadLosesNothing | src/ctrlrtn/workflow/identity.py:262-291 | Whatever payload is accepted gives a valid event that prints every entry read; only a missing id or time is filled in. |
| IdentityRules.IdentifierIff | src/ctrlrtn/workflow/identity.py:37-48 | An identifier is one to 128 letters, digits and `._:/-`, the first a letter or a digit. |
| IdentityRules.ValidIff | src/ctrlrtn/workflow/identity.py:71-107 | The rules of an identity: six identifiers, up to 32 dependencies, none twice and none the run itself, a positive attempt, headers within 4096 bytes. |
| IdentityRules.HeaderBytesAre | src/ctrlrtn/workflow/identity.py:103-128 | The size of the headers is that of all eight, name and value. |
| IdentityRules.MinimalCarrier | src/ctrlrtn/workflow/identity.py:137-159 | A carrier with the five identifiers alone is read, with no parent, no dependencies and a first attempt. |
| IdentityRules.CarrierKeysIff | src/ctrlrtn/workflow/identity.py:137-159 | A carrier that is read has the five identifiers and no key of another name. |
| ToolOperation.ConstructTool | src/ctrlrtn/workflow/tool_operation.py:41-54 | Construction yields valid tool identities only. |
| ToolOperation.ConstructToolEvent | src/ctrlrtn/workflow/tool_operation.py:87-126 | Construction yields valid tool events only, with explicit success on terminal ones and non-negative measures. |
| ToolOperation.ToolEventRoundTrip | src/ctrlrtn/workflow/tool_operation.py:128-185 | Every valid tool event survives its payload. |
| IdentityRules.MeasureIff | src/ctrlrtn/workflow/tool_operation.py:98-110 | A latency or a cost is a finite number that is not negative. |
| ToolOperation.ToolPayloadLosesNothing | src/ctrlrtn/workflow/tool_operation.py:140-185 | Whatever payload is accepted gives a valid tool event that prints every entry read. |
| Text.SplitJoined | src/ctrlrtn/workflow/identity.py:117-188 | Splitting what was joined gives the parts back when none is empty or holds the separator. |
| Text.ParsePrinted | src/ctrlrtn/workflow/identity.py:119-189 | Every integer is read back from its decimal text. |
| ControlRoundTrip.RoundTrip | src/ctrlrtn/control_config/rendering.py:20-91 | Loading the canonical document of any well-formed configuration gives that configuration back, sorted and with timestamps zeroed. |
| ControlRoundTrip.DiffEmptyIff | src/ctrlrtn/control_config/rendering.py:108-116 | Two well-formed configurations have the same canonical document if and only if they hold the same items up to order and timestamps. |
| ControlAccepted.AcceptedIsStable | src/ctrlrtn/control_config/parser.py:48-339 | Any accepted document yields a well-formed configuration whose canonical document is accepted again and means the same. |
| ControlKeys.RenderedIsKeyed | src/ctrlrtn/control_config/rendering.py:20-91 | The rendered document never repeats a key, at any depth, so the laws of loading apply to it. |
| ControlDecisions.LoadsIff | src/ctrlrtn/control_config/parser.py:48-339 | A document is accepted, as exactly this configuration, if and only if it has no key but the five and says version one, its parts are what the sections' entries read as, every experiment for a workflow and every rule is for a version and step the workflows section has, and no two rules share a target. |
| ControlDecisions.ExperimentReadIff | src/ctrlrtn/control_config/parser.py:108-159 | An experiment entry is accepted, as exactly this experiment, when it has no field but the eight, id and candidate are set, the share (50 if not given) is 1 to 99, the ceiling (60 if not given) at least 1, and workflow and version come together. |
| ControlDecisions.RouteReadIff | src/ctrlrtn/control_config/parser.py:76-106 | A route entry is accepted, as exactly this route, when it has no field but the four, a model is set, and a provider, if given, is. |
| ControlDecisions.StepReadIff | src/ctrlrtn/control_config/parser.py:184-229 | A step entry is accepted, as exactly this step, when it has no field but the three, its predecessors are a list of other steps of the version, its flags are booleans (false if not given), and its condition, if any, is a name. |
| ControlDecisions.StepRuleReadIff | src/ctrlrtn/control_config/parser.py:275-333 | A rule for a step is accepted, as exactly this rule, when it has no field but the three and names a model. |
| ControlDecisions.OwnRuleReadIff | src/ctrlrtn/control_config/parser.py:286-333 | A version has a rule of its own exactly when it names a model, and then exactly this one. |
| ControlDecisions.DeclaredIff | src/ctrlrtn/control_config/parser.py:232-255 | What counts as declared is what the workflows section says: the version under its workflow, the step under the version. |
| ControlDecisions.OnlyMappingsRead | src/ctrlrtn/control_config/parser.py:21-45 | Where a mapping is expected anything else is refused; only an empty step stands for an empty mapping. |
| ControlDecisions.OnlyMappingSections | src/ctrlrtn/control_config/parser.py:21-26 | A section that is neither a mapping nor empty refuses the document. |
| ControlRoundTrip.RenderIsCanonical | src/ctrlrtn/control_config/rendering.py:20-91 | Rendering sees neither the order of the items nor their timestamps. |
| ControlEntries.RouteReadBack | src/ctrlrtn/control_config/parser.py:76-106 | A route is read back from its entry, optional fields present or not. |
| ControlEntries.ExperimentReadBack | src/ctrlrtn/control_config/parser.py:108-159 | A running experiment is read back from its entry, scope and provider included. |
| ControlEntries.StepReadBack | src/ctrlrtn/control_config/parser.py:184-229 | A step is read back with its predecessors, flags and condition. |
| ControlSections.RoutesReadBack | src/ctrlrtn/control_config/parser.py:76-106 | A whole section of routes is read back in order. |
| ControlSections.ExperimentsReadBack | src/ctrlrtn/control_config/parser.py:108-159 | A whole section of experiments is read back in order. |
| ControlSections.VersionReadBack | src/ctrlrtn/control_config/parser.py:167-232 | A workflow version is read back with all its steps. |
| ControlSections.DefinitionsReadBack | src/ctrlrtn/control_config/parser.py:160-233 | The nested section of workflows, built up entry by entry, is read back as the sorted list. |
| ControlRoutes.VersionRoutesReadBack | src/ctrlrtn/control_config/parser.py:266-333 | A version's mapping is read back as its own rule followed by its steps' rules. |
| ControlRoutes.WorkflowRoutesReadBack | src/ctrlrtn/control_config/parser.py:257-333 | The nested section of workflow routes, filled with setdefault, is read back as the sorted list. |
| ControlRender.CanonicalDocument | src/ctrlrtn/control_config/rendering.py:20-91 | The rendering loops build the document of the round trip. |
| ControlRender.DocumentRoutes | src/ctrlrtn/control_config/rendering.py:28-34 | The loop over sorted routes. |
| ControlRender.DocumentExperiments | src/ctrlrtn/control_config/rendering.py:35-48 | The loop over sorted experiments. |
| ControlRender.DocumentWorkflowRoutes | src/ctrlrtn/control_config/rendering.py:49-69 | The loop that nests workflow routes by workflow, version and step. |
| ControlRender.DocumentDefinitions | src/ctrlrtn/control_config/rendering.py:70-90 | The loops that nest workflow definitions and their steps. |
| ControlConfig.LoadDocument | src/ctrlrtn/control_config/parser.py:58-339 | The parser accepts and returns exactly what the loading function of the round trip does. |
| ControlConfig.LoadRoutes | src/ctrlrtn/control_config/parser.py:76-106 | The loop collects routes, or refuses at the first bad entry. |
| ControlConfig.LoadExperiments | src/ctrlrtn/control_config/parser.py:108-159 | The loop collects experiments, or refuses at the first bad entry. |
| ControlConfig.LoadSteps | src/ctrlrtn/control_config/parser.py:183-229 | The loop collects the steps of a version, or refuses at the first bad entry. |
| ControlConfig.LoadVersions | src/ctrlrtn/control_config/parser.py:167-232 | The loop collects the versions of a workflow, or refuses at the first bad entry. |
| ControlConfig.LoadWorkflows | src/ctrlrtn/control_config/parser.py:160-233 | The loop collects workflows, or refuses at the first bad entry. |
| ControlConfig.LoadStepRoutes | src/ctrlrtn/control_config/parser.py:277-293 | The loop collects the step rules of a version, or refuses at the first bad entry. |
| ControlConfig.LoadVersionRoutes | src/ctrlrtn/control_config/parser.py:266-333 | The loop collects the rules of a workflow, or refuses at the first bad entry. |
| ControlConfig.LoadWorkflowRoutes | src/ctrlrtn/control_config/parser.py:257-333 | The loop collects workflow routes, or refuses at the first bad entry. |
| ControlConfig.CheckRoutes | src/ctrlrtn/control_config/parser.py:294-312 | Accepts exactly the lists without duplicate targets whose versions and steps are declared. |
| ControlTree.NamesDistinct | src/ctrlrtn/control_config/parser.py:60-66 | No two field names coincide. |
| ControlTree.PairAtNonNull | src/ctrlrtn/control_config/rendering.py:29-33 | A field left out because it is unset reads back as unset. |
| ProposalSafety.FragmentLoadsIff | src/ctrlrtn/workflow/proposal.py:66-122 | The proposed fragment passes every check of the control parser, and loads as exactly the proposed definition, if and only if the family has a node. |
| Proposal.StepName | src/ctrlrtn/workflow/proposal.py:31-43 | The naming loop terminates with the first free candidate, which was not used before. |
| Proposal.NamesInjective | src/ctrlrtn/workflow/proposal.py:66-67 | Every label gets a non-empty name and different labels different names. |
| ProposalNames.WordIsKept | src/ctrlrtn/workflow/proposal.py:31-44 | A label that is one word keeps it, in lower case. |
| ProposalNames.TagAndBracketAreDropped | src/ctrlrtn/workflow/proposal.py:31-44 | A leading tag and everything from the first bracket on are dropped. |
| ProposalNames.WordsAreJoined | src/ctrlrtn/workflow/proposal.py:31-44 | Whatever stands between two words becomes one dash. |
| ProposalNames.NoWordIsObserved | src/ctrlrtn/workflow/proposal.py:31-44 | A label without any word is called `observed-step`. |
| ProposalNames.StepIs | src/ctrlrtn/workflow/proposal.py:68-84 | A step carries its node's name, as predecessors exactly the names of the other steps an edge leads in from, sorted, and a retry flag exactly when some task ran it again. |
| Proposal.CandidatesDistinct | src/ctrlrtn/workflow/proposal.py:37-41 | Suffixed candidates never repeat. |
| Proposal.PredecessorsExact | src/ctrlrtn/workflow/proposal.py:68-72 | A step's predecessors are exactly the steps an edge leads in from, itself excepted. |
| Proposal.BuildFragment | src/ctrlrtn/workflow/proposal.py:53-122 | Refuses unstable identifiers and edges that leave the family, else writes exactly the fragment of the theorem. |
| Proposal.NameAll | src/ctrlrtn/workflow/proposal.py:66-67 | The naming of all nodes in order. |
| Proposal.CollectPredecessors | src/ctrlrtn/workflow/proposal.py:68-72 | The edge loop collects each step's predecessors. |
| Proposal.WriteSteps | src/ctrlrtn/workflow/proposal.py:73-84 | The node loop writes each step with sorted predecessors and its retry flag. |
| ProposalSafety.NameIsIdentifierIff | src/ctrlrtn/workflow/proposal.py:31-43 | Step names are lower-case identifier text; an application can report one exactly when the label's base starts with a letter or digit and, with the suffix of the first free candidate if the base is taken, is at most 128 long. |
| ProposalSafety.SomeNamesAreUnreportable | src/ctrlrtn/workflow/proposal.py:31-43 | A label starting with a dot gives a step name that the identity grammar refuses. |
| ManifestSafety.CreatedVerifies | src/ctrlrtn/eval/dataset_manifest.py:44-341 | Whatever creation freezes is accepted by verification, alone and against the rows it was made from, when no two clusters tie. |
| Manifest.CreateForgetsOrder | src/ctrlrtn/eval/dataset_manifest.py:70-148 | The manifest does not depend on the order of the rows. |
| ManifestSafety.AcceptedSplitIsByRank | src/ctrlrtn/eval/dataset_manifest.py:290-312 | In an accepted manifest an entry is in the training split exactly when fewer than max(1, min(n-1, floor(n*p/100))) clusters have a smaller salted digest than its own. |
| ManifestSafety.LiveAcceptedIff | src/ctrlrtn/eval/dataset_manifest.py:152-341 | Acceptance against live rows is exactly re-creation: the manifest equals, to the letter, what creation makes of the rows it lists. |
| ManifestSafety.PayloadsFrozen | src/ctrlrtn/eval/dataset_manifest.py:263-288 | A manifest accepted against two sets of rows finds the same traces in both, short of a digest collision. |
| ManifestLaws.SameGroupIff | src/ctrlrtn/eval/dataset_manifest.py:38-41 | Short of a collision two traces are in one cluster exactly when they belong to one task, or are one trace without a task. |
| ManifestLaws.NoTaskStraddles | src/ctrlrtn/eval/dataset_manifest.py:152-341 | No leakage: two live traces of one task behind an accepted manifest are in the same split. |
| ManifestLaws.RowsAreFrozen | src/ctrlrtn/eval/dataset_manifest.py:101-112 | Each trace is frozen in its own entry, with the digests of its own request and response; there are no others, and they ascend by id. |
| ManifestLaws.CountsAre | src/ctrlrtn/eval/dataset_manifest.py:313-325 | The six counts of an accepted manifest are the numbers of its traces and clusters, in all and by split, and no cluster is in both. |
| ManifestLaws.SmallestDigestsTrain | src/ctrlrtn/eval/dataset_manifest.py:290-312 | Which clusters train, by nothing but the digests of salt and cluster: those that fewer others precede than clusters train. |
| ManifestLaws.TrainCountIs | src/ctrlrtn/eval/dataset_manifest.py:97-99 | The number of training clusters is the floor of the share, but at least one and not all. |
| ManifestLaws.SealBinds | src/ctrlrtn/eval/dataset_manifest.py:180-186 | Short of a collision a manifest cannot be altered under its digest. |
| ManifestLaws.LabelIff | src/ctrlrtn/eval/dataset_manifest.py:32-35 | A label is any text of at most 200 characters that are not all blank. |
| ManifestLaws.LiveRowIsLast | src/ctrlrtn/eval/dataset_manifest.py:219 | Rows keyed by id: the last row with an id is the one looked up. |
| ManifestSafety.AcceptedEntriesBind | src/ctrlrtn/eval/dataset_manifest.py:344-367 | Any selection of entries of a manifest accepted against rows is bound to those rows. |
| ManifestSafety.FrozenInOrderAccepted | src/ctrlrtn/eval/dataset_manifest.py:44-341 | For rows already in the order of their ids creation is accepted even if clusters tie. |
| ManifestSafety.PositionIsRank | src/ctrlrtn/eval/dataset_manifest.py:94-96 | A cluster's position in the ranking is the number of clusters with a smaller salted digest. |
| Manifest.TrainSetForgetsOrder | src/ctrlrtn/eval/dataset_manifest.py:94-100 | The training clusters depend on the set of clusters only. |
| Manifest.BothSplitsUsed | src/ctrlrtn/eval/dataset_manifest.py:97-100 | Both splits get at least one cluster. |
| Manifest.Create | src/ctrlrtn/eval/dataset_manifest.py:44-149 | Creation succeeds exactly for usable rows and arguments, and then returns exactly the manifest of the theorems. |
| Manifest.ScanRows | src/ctrlrtn/eval/dataset_manifest.py:70-90 | The row loop accepts exactly unique positive ids with unpruned bodies and collects the clusters in order. |
| Manifest.FreezeRows | src/ctrlrtn/eval/dataset_manifest.py:101-112 | The entry loop freezes each row's digests and split. |
| Manifest.Verify | src/ctrlrtn/eval/dataset_manifest.py:152-341 | Verification accepts exactly the acceptable manifests, with and without live rows. |
| Manifest.ScanEntries | src/ctrlrtn/eval/dataset_manifest.py:222-288 | The entry loop accepts exactly distinct well-formed entries that keep each cluster in one split and, with live rows, are bound. |
| Manifest.VerifyBindings | src/ctrlrtn/eval/dataset_manifest.py:344-367 | Bindings are accepted exactly when there are entries, row ids are unique and every entry is bound. |

## Left out

- BudgetSafety.CeilingSafety: spend without a reservation (mirrored candidate traces, requests without a model) is a hypothesis, because the code reserves nothing for it.
- AdmissionSystem.SystemSafety: that a trace carries its own call's reservation, within its amount, is a hypothesis there and a theorem in GatewaySafety; a call outside the gate is a call under a policy without ceilings.
- GatewaySafety.GatewayCeilings: needs `reserve_in_flight`, labelled calls, and a provider that bills a reserved call at the reserved model's price for non-negative token counts within the reserved bounds, which no gateway can enforce; mirrored candidate traces, for which the code reserves nothing, must cost nothing or meet no ceiling.
- GatewaySystem.LiveReservationsAre: a request for whose body no use-case key can be computed (tool names that cannot be sorted) raises in the gate before anything changes, and is no event.
- Headers.ReadingsAgreeIff: the header collection of the web framework is not part of this model; a live lookup is taken to find the first line of a name and iteration to visit every line, with names in lower case.
- Proxy.OneRequestOneReservation: a call whose response stream is never iterated, and a cancelled call, are outside the statement (they are `Cancel` steps of GatewaySystem); `later` stands for the second clock reading of the fallback check.
- Shadow.AttritionConserved: each counter increment succeeds or fails as a whole, and the cancellation of workers at shutdown is not a step; that of the flushing refresh task is.
- ServingControl.EndToEndCeiling: a refresh reads its parts at different moments; the experiments are those of one moment, the other parts are arbitrary.
- Manifest.Create: floats round `n * p / 100` before the floor; the model divides integers, which agrees for every realistic count. Ids that are booleans are not told apart from other non-integers.
- Manifest.Verify: the shape checks on arbitrary JSON (missing or extra keys, wrong types) are the typing of `Manifest`; a live row without any id key, on which the code raises a `KeyError`, is not modelled.
- ManifestSafety.CreatedVerifies: two clusters with the same salted SHA-256 digest are excluded, since their order then depends on the order of the rows.
- Judge.SwappingArmsNegates: judges are functions of their input; a judge that answers differently when asked again is not covered.
- NonInferiority.ComputeBcaLower: the random generator and the normal distribution are arbitrary inputs, so nothing is said about coverage.
- LowerQuantile.BoundIsLowerQuantile: the bias is also 0 when no resampled mean, or every one, lies below the observed mean, as the code cannot correct then; the monotonicity laws are for 0 < below < n.
- LowerQuantile.IndexFollows: asks that `1 - a * (z0 + z)` is positive at both quantiles, where the correction is increasing; the code does not check this, and divides by a negative number otherwise.
- Calibration.AlignedMeans: only the verdict is modelled; the wording of the report and its warnings are not.
- Identity.IdentityFromHeaders: `int()` also reads non-ASCII digits and the case of header names is folded by the HTTP library; neither is modelled. Error messages are not modelled, only that an error is raised.
- Identity.ConstructEvent: an integer too large for a float, on which the code raises an overflow error, counts as finite.
- ControlConfig.Load: a tree with NaN, and the loading of YAML text into a tree, are not modelled. The diff of two documents is whether their trees differ; the text of the diff is not modelled.
- ControlRender.Render: dumping the tree as YAML text is not modelled; it is taken to keep the tree.
- Inference.InferEdges: the extraction of tool ids from message JSON is left out; each trace comes with its produced and consumed ids.
- Inference.FirstUseIsReported: the digest of a tool id is assumed injective, since a collision would merge two pieces of evidence.
- InferenceCycles.RunsAcyclicIff: the same assumption on the digest, for the half that builds a cycle.
- Proposal.BuildFragment: the family metadata, timestamps and digest of the artifact around the fragment, and writing and reading its file.
- HTTP, ASGI, streaming bytes, file and Git access, SQLite stores, job leases and workflow discovery.
- Enrichment beyond its being done once, cache injection, prefix routing, header filtering, tool batching and graph tallies, which would add easier members only.
- The TUI, the command line, text and SVG renderers, recommendation prose and the SDK wrappers.
- Retention, access logs and the workflow and tool event endpoints of the gateway.
