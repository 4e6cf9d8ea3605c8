# LoadEquilibrium: a verified model

This project models seven parts of LoadEquilibrium in Dafny and proves what they are for. Verify
with `dafny verify dfyconfig.toml`.

| Files | Part of the system |
|---|---|
| `Coalescer.dfy`, `Progress.dfy` | The coalescing actuator: `Dispatch`, the worker loop and `Close` as interleaved steps over a mutex, an atomic flag, a pending map and two channels |
| `GaussSeidel.dfy`, `FixedPoint.dfy`, `Coupling.dfy`, `Collapse.dfy` | The in-place fixed-point solver for utilisations, with any map order in every sweep, which way services act on each other, and the collapse probability |
| `Metrics.dfy`, `Prometheus.dfy`, `RoundTrip.dfy` | The printer and the parser of metrics pages (Prometheus "Exposition formats", section "Text-based format", version 0.0.4), and how far they undo each other |
| `SumTree.dfy`, `Replay.dfy` | The prioritised replay buffer: sum tree, slot choice, episode index |
| `Limiter.dfy`, `Rings.dfy` | The token-bucket limiter, the audit ring and the regime memory with its scores |
| `Governor.dfy` | Tick interval stretch and decay, overrun counting, safety levels |
| `Reducer.dfy`, `TopoDiff.dfy`, `Ingest.dfy`, `Quantile.dfy` | The reorder buffer, the topology diff stream and a client replaying it, the ingest queue with its circuit breaker, histogram quantiles |
| `Graphs.dfy` | The layered search `reachCount` and the backtracking search `upstreamDepth` |
| `Reals.dfy`, `Mods.dfy`, `Options.dfy`, `Sorting.dfy` | Arithmetic on reals, ring buffers, optional values, sorted keys |

Objects the Go code updates in place are classes whose methods are tied to functions on values;
loops are loops with invariants; the properties are lemmas about those functions. Concurrency is a
step relation in which every atomic action is one step. `float64` is `real`, `time.Duration` is
`int` nanoseconds, and the clock, the network, the encoder and the worker schedule are inputs.
A Go map iteration picks any remaining key each time.

Where the code does less than it seems to promise, the code is kept as it is, a failing case is
given, and the exact condition is proved:

- `%q` escapes characters the parser does not unescape. A label value survives printing and parsing
  if and only if it consists of printable characters and newlines (`RoundTrip.ValueSurvivesIff`,
  `RoundTrip.RoundTripIff`; `RoundTrip.TabDoesNotSurvive`).
- The reducer looks at its buffer only when the result channel closes. A complete batch leaves in
  order if and only if no more results arrive out of turn than the window holds
  (`Reducer.RunBatch`); every arrival order does if and only if the batch has at most window + 1
  results (`Reducer.EveryOrderFitsIff`, `Reducer.ZeroLastWaits`).
- The delete from the episode index is skipped for episode 0. An insertion leaves an index that is
  exact for episode 0 exact if and only if the buffer is not full, or the slot it takes is not of
  episode 0, or the new experience is; so a run keeps it exact if and only if no insertion fails
  that test (`Replay.ZeroStaysExactIff`, `Replay.ExactThroughoutIff`). In a buffer of any capacity
  the index can go stale (`Replay.EpisodeZeroGoesStale`).
- A stretched tick interval can return to nominal if and only if the configured minimum does not
  exceed the nominal interval (`Governor.ReturnsIff`; `Governor.MinimumAboveNominalSticks`).
- Service IDs may contain colons, and then two edges can share a diff key. Two edges do if and only
  if they have the same ends or overlap, the source of one reaching past a colon into the target of
  the other (`TopoDiff.KeysCollideIff`); among the services of a set all keys are unique if and only
  if no two edges overlap (`TopoDiff.UniqueKeysIff`; `TopoDiff.ColonsCollide`).
- Only the winner's nil from `Close` means drained (`Coalescer.DrainedAtExit`). A `Close` that loses
  the compare-and-swap returns nil at once, possibly with accepted directives still pending
  (`Coalescer.LoserMayReturnBeforeDrain`).
- The comment at `internal/actuator/coalescer.go:195-196` says no new `Dispatch` enters its critical
  section after the swap. One that is past its first check does (`Coalescer.DispatchEntersAfterSwap`):
  with the mutex free, exactly those can still enter (`Coalescer.EntersAfterSwapIff`). No directive
  of such a call is accepted (`Coalescer.TooLateForGood`).
- Limiter buckets can be deleted unseen because an idle one has had the time to fill up. For a whole
  capacity deletion is unobservable if and only if the refill of the idle timeout plus one
  nanosecond reaches it (`Limiter.UnobservableIff`); otherwise a burst before and after shows it
  (`Limiter.ProbeShowsDeletion`). A capacity below one never shows it.
- The effectiveness score negates the direction an action is expected to bring: an action scores
  above one half if and only if the signals moved against that direction
  (`Rings.EffectAboveHalfIff`), and the whole score does if and only if the recency-weighted sum of
  those movements is positive (`Rings.EffectivenessAboveHalfIff`). Actions that all helped score at
  most one half (`Rings.HelpfulActionsScoreLow`).

## Model

| member | source | states |
|---|---|---|
| Coalescer.ControlKept | internal/actuator/coalescer.go:52-127 | Every step keeps mutual exclusion, a single winning Close, no writer once that Close has been through the mutex, no send on or second close of a closed channel, and no pending work without a token, a waking worker or a writer still inside |
| Coalescer.AcceptKeepsLedger | internal/actuator/coalescer.go:67-79 | Writing a directive into the map keeps the account: it becomes pending, and the one it replaces is overwritten by a later ticket of the same service |
| Coalescer.TakeKeepsLedger | internal/actuator/coalescer.go:118-127 | Swapping the map for an empty one moves exactly the pending tickets to the batch and loses none |
| Coalescer.RunOneKeepsLedger | internal/actuator/coalescer.go:133-149 | Executing one snapshot moves its ticket, and only it, from the batch to the executed ones, in order |
| Coalescer.CallerKeepsProvenance | internal/actuator/coalescer.go:52-89 | Every step of a Dispatch keeps accepted directives and requested directives in one-to-one correspondence |
| Coalescer.ReachableInv | internal/actuator/coalescer.go:52-223 | All of the above holds in every state of every interleaving |
| Coalescer.NeverPanics | internal/actuator/coalescer.go:81-89 | No run sends on the closed notify channel or closes it twice, although the flag can flip while a Dispatch is inside its critical section |
| Coalescer.NoLostWakeUp | internal/actuator/coalescer.go:81-116 | Whenever work is pending and the mutex is free, a token is buffered or the worker is between a receive and the swap; Progress.BacklogClears says it gets there |
| Coalescer.ExactlyOneFate | internal/actuator/coalescer.go:52-167 | Every accepted directive is exactly one of pending, in the batch, executed, overwritten - and overwritten only by a later accepted one for its service |
| Coalescer.ExecutedInAcceptanceOrder | internal/actuator/coalescer.go:118-167 | Executions of one service follow acceptance order, nothing runs twice, and what runs is the snapshot that was accepted |
| Coalescer.AcceptedIsWhatWasDispatched | internal/actuator/coalescer.go:52-89 | A returned Dispatch has exactly its active directives accepted, once each and with its tick and fields, if it passed the double check; none otherwise |
| Coalescer.SealedForGood | internal/actuator/coalescer.go:188-203 | Once the winning Close has been through lock and unlock, in every continuation nothing is accepted and nothing enters the map |
| Coalescer.DrainedAtExit | internal/actuator/coalescer.go:96-222 | When the worker has exited or Close has returned nil after it, map and batch are empty, every accepted directive was executed or overwritten but not both, and the last one accepted for a service is the last executed |
| Coalescer.LoserMayReturnBeforeDrain | internal/actuator/coalescer.go:188-193 | A reachable state in which the losing Close has returned nil while an accepted directive is still pending |
| Coalescer.EntersAfterSwapIff | internal/actuator/coalescer.go:188-203 | Once the flag is set and while the mutex is free, a Dispatch enters the critical section in some continuation if and only if it is already past its first check |
| Coalescer.DispatchEntersAfterSwap | internal/actuator/coalescer.go:188-203 | A reachable state in which a Dispatch has taken the mutex after the swap |
| Coalescer.TooLateForGood | internal/actuator/coalescer.go:188-203 | A Dispatch that has not passed its second check when the flag is set never has a directive accepted, in any continuation |
| Coalescer.ReportsAreTrue | internal/actuator/coalescer.go:137-166 | The failure counter is the number of failed executions; the feedback channel never exceeds its buffer and only carries executions that happened |
| Progress.FirstExecutionsReported | internal/actuator/coalescer.go:150-166 | In a run in which nobody reads them the reports are of the first executions, in order, until the buffer is full |
| Progress.DrainIsBounded | internal/actuator/coalescer.go:96-116 | After the channel is closed the worker makes a bounded number of further steps in any interleaving |
| Progress.DrainNeverStuck | internal/actuator/coalescer.go:96-127 | After the channel is closed, until it exits, the worker can step, or waits for a mutex whose holder can step |
| Progress.WorkerDrains | internal/actuator/coalescer.go:96-149 | Every step of the worker, before the channel is closed and after, strictly lowers the work left |
| Progress.NeverStuck | internal/actuator/coalescer.go:52-149 | In every reachable state with work in the map or the batch, the worker or the holder of the mutex can step |
| Progress.AssistedRunIsBounded | internal/actuator/coalescer.go:52-149 | In a run of such steps the worker makes at most as many as the backlog, and the calls at most those that release the mutex |
| Progress.AssistedToTheEnd | internal/actuator/coalescer.go:52-149 | However such a run is scheduled, when no such step is left map and batch are empty and every accepted directive was executed or overwritten |
| Progress.BacklogClears | internal/actuator/coalescer.go:52-149 | From every reachable state, open or closed, at most the backlog of worker steps and the steps that release the mutex get there; the backlog is the work left, and what a Dispatch inside its critical section still adds |
| GaussSeidel.SweepContracts | internal/modelling/network.go:513-538 | One damped in-place sweep, in any order, brings two vectors closer by 1 - 0.55 (1 - gain) in the max norm |
| GaussSeidel.EquilibriumUnique | internal/modelling/network.go:457-466 | Below gain one two fixed points of the update are equal |
| GaussSeidel.IterateContracts | internal/modelling/network.go:511-555 | After k sweeps, each in its own order, the distance to an equilibrium has shrunk by the k-th power of the factor |
| GaussSeidel.StoppedNearEquilibrium | internal/modelling/network.go:551-554 | Stopping when a sweep moved nothing by eps leaves the result within kappa eps / (1 - kappa) of any equilibrium |
| GaussSeidel.ResidualFalls | internal/modelling/network.go:539-550 | Consecutive residuals, even of sweeps in different orders, strictly fall below gain one half and by a factor 0.74 up to gain 0.3 |
| FixedPoint.ServiceRate | internal/modelling/network.go:496-505 | Every service rate the solver computes is positive, so its guard against other rates never skips a service |
| FixedPoint.ServiceRateBounds | internal/modelling/network.go:496-500 | The rate is at least the connections per latency and at most 5/3 of that, exactly that without a queue |
| FixedPoint.RoundIsNearest | internal/modelling/network.go:497 | Rounding gives a nearest whole number, ties away from zero |
| FixedPoint.InitialRho | internal/modelling/network.go:501-504 | Every start value lies in [0, 1.5] |
| FixedPoint.GainIsLipschitz | internal/modelling/network.go:517-530 | The summed edge strengths relative to the service rate bound how much the equations stretch max-norm distances |
| FixedPoint.NetworkSweepContracts | internal/modelling/network.go:513-538 | One sweep over the network contracts by a factor in [0.45, 1) when the gain is below one |
| FixedPoint.AtMostOneEquilibrium | internal/modelling/network.go:457-466 | Below gain one the network has at most one equilibrium |
| FixedPoint.LoadOf | internal/modelling/network.go:517-525 | The edge loop sums the service's own rate and the injections of all edges into it; Coupling.LoadRaised says how much each adds |
| Coupling.DemandMono | internal/modelling/network.go:517-530 | With non-negative rates, raising entries never lowers what the equations give for any service |
| Coupling.DemandAtLeastOwn | internal/modelling/network.go:517-530 | What they give is at least the clamped utilisation by the service's own requests |
| Coupling.EquilibriumAtLeastOwn | internal/modelling/network.go:517-530 | So is every equilibrium |
| Coupling.ResultAtLeastOwn | internal/modelling/network.go:493-538 | So is the solver's result for every observed service, whatever the map orders |
| Coupling.EdgeRaisesDemand | internal/modelling/network.go:518-525 | One more edge never lowers what the equations give |
| Coupling.EdgeRaisesEquilibrium | internal/modelling/network.go:518-525 | Below gain one, one more edge lowers no entry of the equilibrium |
| Coupling.LoadRaised | internal/modelling/network.go:521-522 | Raising one entry by x, up to one, raises the load by exactly x times a tenth of the weighted request rate of its edges |
| Coupling.DemandRaised | internal/modelling/network.go:521-530 | Between the caps the equations pass exactly that on |
| Coupling.LoadSaturates | internal/modelling/network.go:521 | Beyond utilisation one an entry passes on no more |
| Coupling.HalfUsedService | internal/modelling/network.go:517-530 | The equilibrium of two services and one edge |
| Coupling.UncoupledConverges | internal/modelling/network.go:526-536 | A service nothing feeds keeps exactly 0.45 of its distance in every sweep, in any order |
| FixedPoint.UpdatedRho | internal/modelling/network.go:526-531 | One update is the damped step towards the clamped utilisation of the current vector |
| FixedPoint.SweepInPlace | internal/modelling/network.go:512-538 | The range loop is a sweep that updates every service once, in some order, and maxDelta is exactly the largest change |
| FixedPoint.FiftySweepsSuffice | internal/modelling/network.go:478-482 | 49 residual reductions by 0.74 bring 1.5 below the threshold 1e-6 |
| FixedPoint.NextResidual | internal/modelling/network.go:539-550 | The residual of the next sweep of the network falls below gain one half, geometrically up to 0.3 |
| FixedPoint.RunSweeps | internal/modelling/network.go:508-555 | The iteration stops at the first residual below 1e-6 or after 50 sweeps; below gain one half its rate estimate stays below one |
| FixedPoint.ResultNearEquilibria | internal/modelling/network.go:511-555 | The result is within 1.5 kappa^sweeps of every equilibrium, and within the stop radius if converged |
| FixedPoint.Solve | internal/modelling/network.go:470-583 | The solver as a whole, for any windows and edges: result in [0, 1.5] and near every equilibrium, converged up to gain 0.3, positive stability margin below gain one half; the reported rate is the smoothed one of the residuals, the collapse probability that of the result; empty input handled |
| FixedPoint.ConvergedResultsAgree | internal/modelling/network.go:526-554 | Without any equilibrium: below gain one a converged result solves the equations up to (gain + 9/11) eps, and any two converged results, from any start and in any map orders, are within 2 (gain + 9/11) eps / (1 - gain) |
| GaussSeidel.NearSolutionsAgree | internal/modelling/network.go:457-466 | Below gain one vectors that nearly solve the equations are near each other |
| GaussSeidel.SettledNearlySolves | internal/modelling/network.go:526-554 | A vector whose last sweep moved nothing by more than eps solves the equations up to (gain + 9/11) eps |
| FixedPoint.MeasuredStep | internal/modelling/network.go:539-550 | Each sweep adds its residual to the list and smooths the rate estimate with it |
| FixedPoint.GeometricRate | internal/modelling/network.go:539-549 | Residuals shrinking by one factor are estimated at exactly that factor |
| Collapse.SystemicCollapse | internal/modelling/network.go:557-563 | The probability that at least one service collapses, each independently; the cap changes nothing |
| Collapse.AnyOrder | internal/modelling/network.go:557-563 | It does not depend on the order of the map |
| Collapse.MoreLoadMoreCollapse | internal/modelling/network.go:557-563 | More load on every service means no less probability of collapse |
| Metrics.PrintLabels | internal/metrics/metrics.go:187-198 | Every label is printed exactly once in alphabetical order of the keys: key, quoted value and separating commas |
| Metrics.PageWriter.WriteMetric | internal/metrics/metrics.go:178-200 | The page grows by exactly the comment lines, if there is help, and the sample line of this metric with its labels in alphabetical order |
| Metrics.AlphabeticalOnce | internal/metrics/metrics.go:187-191 | There is only one alphabetical list of the labels, so a page does not depend on the map order |
| Prometheus.SplitMetricLine | internal/collector/prometheus.go:129-150 | Splits at the first whitespace outside braces, quotes and escapes, for any line |
| Prometheus.FirstField | internal/collector/prometheus.go:152-159 | The text up to the first whitespace |
| Prometheus.ReadQuotedFrom | internal/collector/prometheus.go:194-215 | Reads, for any text, the unescaped value and stops just after its closing quote or at the end |
| Prometheus.ParsePair | internal/collector/prometheus.go:177-222 | One round of the label loop, its three ways out included |
| Prometheus.ParseLabels | internal/collector/prometheus.go:174-224 | The label map of any text; ends in bounds, later pairs win |
| Prometheus.ParseMetricToken | internal/collector/prometheus.go:161-172 | Name and labels of a token, or the error when the braces are the wrong way round; for a printed token RoundTrip.TokenSplits says which |
| Prometheus.ParseLine | internal/collector/prometheus.go:99-121 | A line gives one sample or, when blank, a comment, unsplittable, without a finite value, malformed or nameless, none; for a printed line RoundTrip.SampleLineReads says which sample |
| Prometheus.ParsePrometheusText | internal/collector/prometheus.go:93-127 | On any text the parser ends with the samples of its lines in order, or with an error exactly when a line does not fit the scanner |
| RoundTrip.QuoteShape | internal/metrics/metrics.go:197 | A quoted character is itself or an escape the parser consumes whole |
| RoundTrip.ReadBack | internal/collector/prometheus.go:194-215 | Reading a printed value consumes exactly the value and its quote and yields the reread characters |
| RoundTrip.ValueSurvivesIff | internal/collector/prometheus.go:198-210 | A value comes back unchanged if and only if all its characters are printable or newlines |
| RoundTrip.TabDoesNotSurvive | internal/collector/prometheus.go:198-210 | A tab is read back as the letter t |
| RoundTrip.ReadAllLabels | internal/collector/prometheus.go:174-224 | Parsing the printed labels gives every key once with its reread value |
| RoundTrip.TokenScan | internal/collector/prometheus.go:129-149 | The scan passes over a printed token without splitting it, whatever its label values contain |
| RoundTrip.TokenSplits | internal/collector/prometheus.go:161-172 | A printed token parses to its name and labels |
| RoundTrip.SampleLineReads | internal/collector/prometheus.go:99-121 | A printed sample line parses to one sample with the printed name, labels and value token |
| RoundTrip.LongerLineReads | internal/collector/prometheus.go:99-121 | A printed line followed by a space and anything else, such as a timestamp, reads as the same sample |
| RoundTrip.MetricLines | internal/metrics/metrics.go:178-200 | The text of a metric is exactly its comment lines and its sample line, newlines in label values included |
| RoundTrip.PageRoundTrip | internal/collector/prometheus.go:93-127 | Parsing a printed page gives its metrics in order, label values as reread, unless a line is too long |
| RoundTrip.RoundTripIff | internal/collector/prometheus.go:93-224 | Parsing a printed page gives exactly what was printed if and only if all label values consist of printable characters and newlines |
| SumTree.SpanSum | internal/intelligence/experience_buffer.go:260-262 | A node holds the sum of the leaves it stands for |
| SumTree.SetInner | internal/intelligence/experience_buffer.go:260-262 | Recomputing one node on the way up moves the only possibly wrong sum to its parent |
| SumTree.WalkStep | internal/intelligence/experience_buffer.go:269-277 | Each step down keeps the sought value inside the leaves below |
| Replay.FinishedSlotFirst | internal/intelligence/experience_buffer.go:240-247 | A full buffer overwrites a Done slot whenever one exists |
| Replay.HoldsTheLast | internal/intelligence/experience_buffer.go:93-125 | From the empty buffer, as long as nothing finished is inserted, it holds exactly the last experiences, as many as fit, each in the slot of its position |
| Replay.AddedReplaces | internal/intelligence/experience_buffer.go:234-250 | An insertion goes to the next free slot; or, going round a full buffer from size mod capacity, to the first finished one; or, when none is finished, to the one at that position |
| Replay.NextOnce | internal/intelligence/experience_buffer.go:234-250 | There is exactly one such slot |
| Replay.EpisodesKept | internal/intelligence/experience_buffer.go:98-113 | After an insertion the index of every episode but 0 lists exactly its slots; that of episode 0 lists every slot that ever held it |
| Replay.ZeroStaysExactIff | internal/intelligence/experience_buffer.go:98-113 | An insertion keeps an index that is exact for episode 0 exact if and only if it does not give a full buffer's slot of episode 0 to another episode |
| Replay.ExactThroughoutIff | internal/intelligence/experience_buffer.go:98-113 | A run keeps the index exact for episode 0 throughout if and only if none of its insertions does that |
| Replay.EpisodeZeroGoesStale | internal/intelligence/experience_buffer.go:98-113 | From an empty buffer of any capacity a run after which the index lists for episode 0 a slot that holds another |
| Replay.LeavesKept | internal/intelligence/experience_buffer.go:118-124 | Occupied leaves are exactly the first min(size, capacity), each with its slot's priority, all others zero |
| Replay.PrefixIsPrioritySum | internal/intelligence/experience_buffer.go:282-284 | Prefix sums of the leaves are prefix sums of the priorities of the slots |
| Replay.DrawsInProportion | internal/intelligence/experience_buffer.go:138-147 | No value draws two slots, and the values drawing a slot form an interval as long as its priority |
| Replay.ExperienceBuffer.constructor | internal/intelligence/experience_buffer.go:62-91 | An empty valid buffer whose tree base is the least power of two not below the capacity |
| Replay.ExperienceBuffer.UpdateTree | internal/intelligence/experience_buffer.go:254-263 | Sets one leaf, leaves all other leaves alone and restores every sum |
| Replay.ExperienceBuffer.NextInsertIndex | internal/intelligence/experience_buffer.go:234-250 | The slot so described, by the loop over the full buffer |
| Replay.ExperienceBuffer.Add | internal/intelligence/experience_buffer.go:93-125 | Slots, size and episode index become those of the specification; keeps the sums, the leaves and the episode index valid, appends to the regime list |
| Replay.ExperienceBuffer.Total | internal/intelligence/experience_buffer.go:132 | The root is the sum of the priorities of the occupied slots |
| Replay.ExperienceBuffer.SampleTree | internal/intelligence/experience_buffer.go:265-280 | For 0 <= v <= total returns the occupied slot whose interval of summed priorities holds v, slot 0 for v = 0 |
| Limiter.RateLimiter.Allow | internal/security/security.go:216-243 | Allowed exactly when the refilled level reaches one token; the new state takes it and collects |
| Limiter.RateLimiter.GcIfNeeded | internal/security/security.go:245-256 | At most once a minute, deletes exactly the buckets idle for longer than the timeout |
| Limiter.CollectionUnobservable | internal/security/security.go:216-256 | In every run with a non-decreasing clock all answers are those of a limiter that never deletes a bucket, when an idle bucket has had the time to fill |
| Limiter.ServerLimitersAreSensible | internal/api/server.go:102-104 | Both limiters of the API server meet that condition |
| Limiter.ProbeShowsDeletion | internal/security/security.go:216-256 | A run from the new limiter in which a deletion lets a call through, for every configuration under which a drained bucket does not regain the drained tokens while idle |
| Limiter.UnobservableWhen | internal/security/security.go:216-256 | No run shows a deletion when the capacity is below one, or the refill of the idle timeout plus one nanosecond reaches the capacity |
| Limiter.UnobservableIff | internal/security/security.go:216-256 | For whole capacities that refill condition is exact |
| Limiter.BurstAnswers | internal/security/security.go:233-242 | Of calls at one instant exactly as many are let through as the bucket has whole tokens |
| Limiter.RateBound | internal/security/security.go:216-243 | In every run, over every stretch and for every key, at most capacity plus refill of the elapsed time is let through, deletions included |
| Limiter.ExactlyAllowed | internal/security/security.go:216-243 | A call of any run is let through if and only if the capacity is at least one and, from every earlier call for its key on, what was granted and one more is within the capacity and the refill of the time since |
| Limiter.LevelIff | internal/security/security.go:226-243 | The tokens a key has after any calls, in terms of the calls and answers alone |
| Limiter.NothingKeptForLong | internal/security/security.go:245-256 | After any run no bucket is kept for a key last seen the idle timeout and a minute before the last call |
| Rings.AuditLogger.Log | internal/security/security.go:315-327 | The log grows by the time-stamped event and the ring still holds its tail |
| Rings.AuditLogger.Recent | internal/security/security.go:330-342 | The last min(n, size) events of the whole log, oldest first |
| Mods.ContainsPush | internal/security/security.go:320-326 | Writing at the head keeps the ring equal to the tail of the longer log |
| Rings.RegimeMemory.Get | internal/autopilot/regime_memory.go:73-76 | The i-th newest entry of the whole log |
| Rings.RegimeMemory.Add | internal/autopilot/regime_memory.go:41-67 | Appends the entry; the cycle score stays in [0, 1] and rises only when two actions that are not holds differ; the capacity hint follows the workers |
| Rings.RegimeMemory.Responses | internal/autopilot/regime_memory.go:168-183 | The inner sums telescope to a quarter of the change over the four entries after the action |
| Rings.RegimeMemory.GetEffectiveness | internal/autopilot/regime_memory.go:138-203 | The decay-weighted mean of the action effects, a function of the kept end of the log; the last clamp changes nothing |
| Rings.EffectivenessInRange | internal/autopilot/regime_memory.go:194-202 | The weighted mean of effects is in [0, 1] before it is clamped |
| Rings.EffectAboveHalfIff | internal/autopilot/regime_memory.go:157-190 | scale_up scores above one half if and only if the mixed signals rose afterwards, scale_down if and only if they fell |
| Rings.EffectivenessAboveHalfIff | internal/autopilot/regime_memory.go:138-203 | With actions and without clamping the score is above one half if and only if the recency-weighted movement against the expected direction is positive, below if and only if negative |
| Rings.HelpfulActionsScoreLow | internal/autopilot/regime_memory.go:138-203 | When every action moved the signals as expected or not at all, the score is at most one half, clamped or not |
| Rings.RegimeMemory.Sums | internal/autopilot/regime_memory.go:229-254 | The weights of trend turns and action changes and the weighted square deviations; the total weight is positive |
| Rings.RegimeMemory.GetOscillationScore | internal/autopilot/regime_memory.go:209-271 | The blend of turn share, compressed spread and flip share; the clamp changes nothing |
| Rings.OscillationInRange | internal/autopilot/regime_memory.go:260-270 | The oscillation score is in [0, 1] before it is clamped |
| Rings.SteadyScores | internal/autopilot/regime_memory.go:209-271 | Constant instability scores 0 with one action and exactly 0.2 when every action differs from the one before |
| Rings.TurningScores | internal/autopilot/regime_memory.go:209-271 | Turning around at every entry scores 0.4 and up to 0.4 more by the spread, and 0.2 on top when every action changes |
| Rings.NewerWeighsMore | internal/autopilot/regime_memory.go:78-81 | Newer entries weigh more, the newest one exactly one, falling as one over one plus 2.5 times the share of age |
| Governor.Orchestrator.ExecuteTick | internal/runtime/control.go:30-34 | A tick is the overrun and safety block followed by the interval adaptation |
| Governor.Orchestrator.RunTick | internal/runtime/orchestrator.go:1162-1199 | New overrun counts, level and mode after an overrunning or clean tick; Governor.LevelMoves and Governor.LevelBetween say what that means |
| Governor.TickKeepsInv | internal/runtime/orchestrator.go:1162-1199 | The overrun and safety block leaves the interval alone, keeps the mode tied to level 2 and the level at least what the overruns call for, and raises it by at most one |
| Governor.Orchestrator.AdaptInterval | internal/runtime/orchestrator.go:284-372 | New interval and stable count: reactive stretch, proactive stretch, or decay; Governor.AdaptKeepsInterval says what they keep |
| Governor.AdaptKeepsInterval | internal/runtime/orchestrator.go:284-372 | The adaptation keeps the interval between nominal and the maximum and touches only the interval and the stable count |
| Governor.StepKeepsInv | internal/runtime/orchestrator.go:1162-1199 | Every tick keeps the bounds and raises the level by at most one |
| Governor.EveryRun | internal/runtime/orchestrator.go:284-372 | In every run nominal <= interval <= max, the mode is on exactly from level 2, and min(3, overruns / threshold) <= level <= 3 |
| Governor.LevelMoves | internal/runtime/orchestrator.go:1162-1199 | In one tick the level rises only to what the overrun count calls for, and falls by one exactly on a clean tick that leaves no overruns at a stable count that is a positive multiple of five |
| Governor.LevelBetween | internal/runtime/orchestrator.go:1162-1199 | In every run the level is between what the overruns call for and what the largest overrun count so far called for |
| Governor.FewOverrunsStayCalm | internal/runtime/orchestrator.go:1171-1184 | Fewer overruns than the threshold never leave level 0 or set the mode |
| Governor.OverrunsSetLevel | internal/runtime/orchestrator.go:1171-1184 | n overruns in a row from the start lead to exactly level min(3, n / threshold) |
| Governor.LevelFallsSlowly | internal/runtime/orchestrator.go:1189-1198 | Over any ticks the level falls no more often than the stable count can pass multiples of five: after a fall at least five ticks pass |
| Governor.IntervalMoves | internal/runtime/orchestrator.go:284-372 | With a minimum up to nominal: two overruns stretch the interval by the full step, else a forecast that counts by the soft step, else it shrinks by the step and no faster |
| Governor.TotalCountsOverruns | internal/runtime/orchestrator.go:1165-1166 | The total is the number of overrunning ticks |
| Governor.OverrunsRunOut | internal/runtime/orchestrator.go:1185-1188 | Each clean tick takes one overrun off |
| Governor.IntervalReturns | internal/runtime/orchestrator.go:349-370 | Without overruns the interval is exactly nominal once the step's power exceeds the widest excess |
| Governor.LevelClears | internal/runtime/orchestrator.go:1189-1198 | At the nominal interval at most 16 clean ticks clear the safety level |
| Governor.Recovery | internal/runtime/orchestrator.go:284-372 | From every reachable state, overruns + decay + 16 clean ticks restore zero overruns, the nominal interval and level 0 |
| Governor.DecayExists | internal/runtime/orchestrator.go:349-360 | Such a number of decay ticks exists for every configuration |
| Governor.NoReturnAboveMinimum | internal/runtime/orchestrator.go:358-360 | With a minimum above nominal a stretched interval never returns, whatever the ticks |
| Governor.ReturnsIff | internal/runtime/orchestrator.go:349-371 | A stretched interval can be recovered if and only if the minimum does not exceed nominal |
| Governor.OverrunsStretch | internal/runtime/orchestrator.go:324-334 | Two overrunning ticks from the start stretch the interval by one step |
| Governor.MinimumAboveNominalSticks | internal/runtime/orchestrator.go:349-371 | For every configuration with a minimum above nominal and a step that stretches: after two overruns from the start no ticks whatever bring the interval back |
| Governor.OneSecondGovernorSticks | internal/runtime/orchestrator.go:349-371 | Ticks of one second, at least two and at most five, are such a configuration |
| Reducer.Receive | internal/sandbox/parallel_executor.go:296-322 | A result is sunk when it is next, else buffered, after flushing any one entry of a full buffer |
| Reducer.StandingFlush | internal/sandbox/parallel_executor.go:306-321 | A speculative flush leaves an index the reducer never gets past |
| Reducer.Drain | internal/sandbox/parallel_executor.go:277-291 | The closing drain completes an unflushed batch in order, and never completes a flushed one |
| Reducer.RunBatch | internal/sandbox/parallel_executor.go:251-324 | Each result is sunk at most once, cancelled or not; a complete batch leaves as 0 to n - 1 in order if and only if at most a window of results arrives out of turn, in particular whenever n is at most the window plus one; a cancelled one leaves what was sunk before and, when flushing, everything not yet received |
| Reducer.SunkOrBuffered | internal/sandbox/parallel_executor.go:296-322 | Of distinct results each one received has been sunk or is still in the buffer |
| Reducer.SmallBatchFits | internal/sandbox/parallel_executor.go:304-321 | A complete batch has at least one arrival in turn, whatever the order |
| Reducer.ZeroLastWaits | internal/sandbox/parallel_executor.go:304-321 | When index 0 arrives last all but one of the results have to wait |
| Reducer.EveryOrderFitsIff | internal/sandbox/parallel_executor.go:251-324 | Every arrival order of a complete batch of n leaves in order if and only if n is at most the window plus one |
| TopoDiff.Compare | internal/streaming/diff.go:57-70 | The added, changed and removed entries of a map, each exactly once, in some order |
| TopoDiff.Lookup | internal/streaming/diff.go:47-55 | The lookup map of a list; the last entry of a key wins |
| TopoDiff.ComputeTopologyDiff | internal/streaming/diff.go:40-102 | A full diff when nothing was known or more than half the nodes changed, else exactly the differences |
| TopoDiff.FullIffMostChanged | internal/streaming/diff.go:95-101 | A diff is full if and only if nothing was known, or more than half of the nodes appeared, disappeared or changed their load by more than 0.02 |
| TopoDiff.EmptyIffUnchanged | internal/streaming/diff.go:57-93 | A diff is empty if and only if something was known and no node or edge has changed so |
| TopoDiff.PatchKeepsClose | internal/streaming/diff.go:57-93 | Applying an incremental diff gives exactly the new keys and adds at most 0.02 to the error |
| TopoDiff.TickKeepsInStep | internal/runtime/orchestrator.go:991-1005 | A sent or skipped diff keeps client and server in step |
| TopoDiff.ClientInStep | internal/streaming/diff.go:40-111 | After any stream of ticks the client has exactly the keys last sent, each load and weight off by at most 0.02 per incremental diff since the last full one |
| TopoDiff.KeysCollideIff | internal/streaming/diff.go:73-80 | Two edges have the same key if and only if they have the same ends or overlap |
| TopoDiff.UniqueKeysIff | internal/streaming/diff.go:73-80 | Among the services of a set every edge has a key of its own if and only if no two edges overlap |
| TopoDiff.AllEdgesKnownIff | internal/streaming/diff.go:73-80 | The lookup map knows all edges of a snapshot if and only if no two of them overlap |
| TopoDiff.EdgeKeyInjective | internal/streaming/diff.go:73-80 | In particular edges whose sources contain no colon share a key only if they have the same ends |
| TopoDiff.ColonsCollide | internal/streaming/diff.go:73-80 | A witness: two overlapping edges, of which the diff then knows only the one listed last |
| Ingest.IngestClient.Enqueue | internal/collector/ingest.go:73-83 | A full queue refuses and counts the point; otherwise it joins the end |
| Ingest.IngestClient.RecordFailure | internal/collector/ingest.go:267-275 | Counts the failure and opens the breaker from the configured count on |
| Ingest.IngestClient.FlushWithRetry | internal/collector/ingest.go:171-213 | No POST when entered with an open breaker; otherwise attempts up to the first success, the pauses between them, the outcome and the breaker state it leaves |
| Ingest.PauseStep | internal/collector/ingest.go:201-204 | The pauses double and are capped from the second on |
| Ingest.IngestClient.Flush | internal/collector/ingest.go:110-147 | The whole batch leaves with one fate, counted as sent or failed, or stays when it is empty or the context ends first |
| Ingest.IngestClient.Admit | internal/collector/ingest.go:155-161 | The queue's head joins the end of the batch; only at four times the batch size does the oldest point leave, as dropped |
| Ingest.IngestClient.TakePoint | internal/collector/ingest.go:154-164 | After that, a batch at its limit leaves whole with one fate and the breaker that flush leaves, or stays when the context ends first; no POST when the breaker is open |
| Ingest.NothingLostByFlush | internal/collector/ingest.go:110-164 | A flush only adds departures, and unless it found the context done a batch below its limit stays below it and loses nothing to drop-oldest |
| Ingest.IngestClient.Run | internal/collector/ingest.go:149-168 | Over any events all accounts stay valid, and unless a flush finds the context done the drop-oldest branch is never taken |
| Ingest.PointsAddUp | internal/collector/ingest.go:73-164 | Accepted points = queued + in the batch + sent + failed + unencodable + dropped |
| Ingest.FlushedInOrder | internal/collector/ingest.go:110-164 | Without drops the flushed batches concatenate to a prefix of the accepted points |
| Ingest.OneFailureReopens | internal/collector/ingest.go:267-275 | After any flushes of a new client: a breaker that has opened and not been closed since re-opens on the first failed round |
| Ingest.BreakerKept | internal/collector/ingest.go:252-275 | Any flushes keep the invariant, part of the client's validity, that an opened breaker has counted the failures it opens at |
| Ingest.BreakerIs | internal/collector/ingest.go:252-275 | After any flushes of a new client the failure count is the exhausted rounds since the last delivery, and the breaker is set exactly from the configured count on, to the cooldown after the last of them |
| Ingest.ProbesAreSpaced | internal/collector/ingest.go:171-213 | During an outage an opened breaker spaces the flushes that post by at least the cooldown |
| Quantile.HistogramQuantile | internal/collector/normalizer.go:446-487 | The value in the first bucket of the sorted bounds that reaches the rank, for any buckets and q |
| Sorting.SortedOnce | internal/collector/normalizer.go:450-454 | There is only one sorted list of the bounds, so the quantile does not depend on the map order |
| Quantile.TotalOf | internal/collector/normalizer.go:455-462 | The +Inf count, or the largest count without one |
| Quantile.Walk | internal/collector/normalizer.go:466-486 | The second loop finds the first bucket reaching the rank and interpolates in it |
| Quantile.QuantileMonotone | internal/collector/normalizer.go:446-487 | With positive bounds the quantile grows with q, cumulative counts or not |
| Quantile.QuantileInBucket | internal/collector/normalizer.go:469-486 | For 0 < q <= 1 some bucket reaches the rank and the quantile lies in the first that does, at the last finite bound for +Inf |
| Quantile.QuantileOnTheLine | internal/collector/normalizer.go:469-481 | Within a finite first bucket the quantile lies on the line from the bound and count before it to its own, and meets its own bound at its count |
| Graphs.ReachCount | internal/modelling/topology_sensitivity.go:124-143 | Exactly the number of nodes other than start with a walk of at most maxDepth hops from it |
| Graphs.UpstreamDepth | internal/modelling/network.go:346-365 | Restores the visited map and returns depth plus the hops of the longest caller chain within the remaining depth whose nodes but the last are unmarked and distinct |

## Left out

- HTTP handlers, Docker discovery, the WebSocket hub, the Postgres writer, environment configuration and the UI: plumbing around the parts modelled here.
- Authentication, CORS, response headers and input validators in `internal/security/security.go`: not part of the limiter or the ring.
- The reinforcement-learning, predictive-control and plant simulation code: tuning formulas over random numbers, `exp` and `tanh` without an exact specification.
- Limiter.UnobservableIff: for capacities of at least one with a fraction only `UnobservableWhen` and `ProbeShowsDeletion` hold; which levels such a bucket can reach at whole nanoseconds decides the cases between.
- IEEE rounding, NaN and infinities: numbers are reals; the solver's NaN guard and the quantile of non-finite counts are not modelled.
- Existence of an equilibrium of the solver: needs completeness of the reals. Results about equilibria are about every one there is; `FixedPoint.ConvergedResultsAgree` speaks of converged results alone.
- Collapse.SystemicCollapse: of the logistic function only its range and direction are used; the sensitivity analysis built on the solver (`internal/modelling/network.go:622-654`) is not modelled.
- Coalescer: the coalescing window, latencies, `DirectiveID` and `CreatedAt` are not modelled; executing one snapshot and reporting it is one step.
- Metric pages beyond ASCII: the parser iterates over runes but slices bytes there, and `unicode.IsSpace` knows further spaces.
- The order of service IDs in which metrics are written to a page: `WriteMetric` is modelled for one metric at a time.
- `strconv.ParseFloat` and `%g`: value tokens are opaque, and which of them are finite numbers is an input.
- Replay.Priority: the signals' `tanh` score is an input; only the floor at the minimum priority is modelled.
- The replay buffer's drift averages, importance weights and random draws; adding to a buffer of capacity 0 or for an unknown regime panics in the code and is excluded.
- `norm` in the regime memory: its log-compressed value is an input of each entry; `GetTrend` and `GetStabilityScore` are weighted sums of the same kind.
- The stage forecasts of the governor: whether they exceed the deadline is an input, and the square root of the adapt step is a configuration value of at least one.
- Reducer: workers, autoscaling, idle timers and panics only decide the order of arrivals; a nil sink is not modelled.
- Node and edge attributes other than load and weight in the diff stream: an incremental diff may leave them stale without bound.
- The JSON encoding and the HTTP status handling of the ingest client: whether a batch encodes and each POST succeeds is an input.
- `counterRate` and the metric classifiers of the normalizer: only the quantile is modelled.
