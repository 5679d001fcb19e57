# Noire: a Dafny model of the audio path, the control plane, and the durable store

Noire captures microphone audio, denoises it in 512-sample frames, and publishes it through a virtual source. This
project models the parts of Noire in which many pieces must agree, and proves what they keep:

- **The real-time path.** The generation-tagged ring between the capture and the source callback is a step machine
  with one atomic access per step (`RingMachine`); its invariants hold in every interleaving (`RingWorld`,
  `RingSessions`) and give the statements a listener cares about (`RingTheorems`, and `RingFills` for whole fills),
  with `RingExamples` showing that what they single out is reachable. The producer (`BypassCaptureSink`) and the
  consumer (`BypassOutput`) are classes in the program's own form, each tied to a run of that machine while other
  threads act before every access. `Seqlock` is the parameter hand-over as a step machine, `LiveParameters` its writer
  and reader as classes tied to it. `Framing`, `DryDelay`, `Strength`, `FaultRamp` and `LiveSink` hold the stateful
  pieces, which work in place and are proved equal to stream functions; `LiveStream` and `LiveRuns` prove what those
  functions compute, failures and resets included, and `LiveGenerations` what they know behind `Capture`, which covers
  input generations, `Demand` the consumer-demand clock, `Timing` the statistics.
- **The control plane.** `ConfigModel` and `ConfigStore` model validation, migration, loading, and the durable save,
  in which every file-system operation may succeed, fail, or be the last one before a crash. `DaemonModel` and
  `Daemon` model the optimistic-concurrency state machine on top, with the audio engine and systemd as answering
  partners.
- **Smaller cores.** `Offline` is the delay-compensating runner, `Registry` the canonical device list and its
  debounced monitor, `WeightFile` the RNNoise weight-file reader and writer.

Reading order: `Prelude`, `Samples`, `Framing`, then any group above. `dafny verify dfyconfig.toml` checks everything.

## Assumptions

- Sequential consistency: every atomic load, store, push and pop is one indivisible step.
- Samples are reals; a 32-bit float is NaN, infinite, or finite, and a subnormal is flushed where the program flushes
  it. Rounding, the sign of zero, `sin` and `exp` are not modelled. The fade's sine table is any non-decreasing table
  from 0 at step 0 to 1 at step 240 whose steps are at most 0.0066 (the quarter sine's largest is below pi/480).
  `RealProducts` holds the few product bounds that the fade and the strength ramp share.
- A frame model is a deterministic function of all frames since its reset, or a failure. A TOML codec is any pair that
  reads back the configurations it is asked to render; for any finite set of configurations there is one
  (`ConfigModel.SomeCodecRoundTrips`). Lower-casing of labels is any function.
- The audio engine accepts a configuration completely or keeps the previous one, as its trait documents.
- A rename is atomic, a synced file keeps its bytes, and a rename is durable once its directory was synced; until then
  a crash may lose it independently of other renames. The configuration directory itself is durable.
- Generations and ring positions are unbounded naturals; the `u64` counters that saturate or could wrap within a
  model's statements (`Capture`, `Daemon`, `Registry`, `Seqlock`, `Offline`) are bounded explicitly.

## Where the code decides against the obvious stronger claim

- An underflow is meant to fade to silence without a click. Its first sample jumps by exactly |last| times one minus
  the gain one step down, up to flushing (`FaultRamps.UnderflowJump`): that is small from unity gain
  (`FaultRamps.UnderflowFromUnityIsClickFree`), but an underflow half-way through a fade-in clicks, whatever the table
  (`FaultRamps.UnderflowDuringFadeInClicks`). The fade finishes exactly if the callback is at least as long as the
  gain step; a shorter callback leaves a rest that the next one cuts off (`RingFills.UnderflowFadeFinishesIff`,
  `RingExamples.ShortBufferCutsTheFade`).
- A session is one gap-free run of the offered samples exactly if the publication gate withheld nothing while it
  lasted (`RingTheorems.SessionIsGapFreeIffNothingWithheld`), and sessions with a gap exist
  (`RingExamples.GateLeavesAGap`).
- A fill that finds its samples queued completes exactly if they are of its generation (`RingFills.FillCompletesIff`,
  `RingFills.FillNeverStarvesIff`). So the first delivering fill keeps its reserve unless its oldest samples are stale
  (`RingFills.FirstBypassFillKeepsTheReserve`), which a block tagged before a resync can bring about
  (`RingExamples.StaleBlockStarvesAStartup`).
- A read of the parameters that no update accompanies adopts the latest ones. With two updates in progress at the
  adopting read the epoch is even again and a half-done state can be adopted (`Seqlock.OverlappingUpdatesTear`).
- The last histogram bucket's edge is no upper bound: it is one exactly below 1.6 ms (`Timing.EdgeIsUpperBoundIff`).
- `finish` does report lost samples, exactly after a finite chunk beyond 4096 samples was refused, because the chunk
  was counted before its size was checked (`Offline.FinishIsReference`, `Offline.OversizedChunkIsMissed`).
- `save` can return an error although the primary was replaced, exactly when only the directory sync failed
  (`ConfigStores.RefusedButRenamedIff`). A refused save can also come back on the next load, exactly when the primary
  was undecodable and the backup had already been replaced (`ConfigStores.RefusedCandidateLoadsIff`,
  `ConfigStores.RefusedCandidateComesBack`).
- A newer file is preserved because the schema check reads it; if that one read fails, the save goes ahead
  (`ConfigStores.NewerIsReplacedIff`).
- A version-0 file whose input is white space is refused although every field is in range
  (`ConfigModel.LegacyMigratesIff`).
- At revision saturation two updates based on the same revision both succeed (`DaemonModel.SaturationLosesUpdates`).
- Device labels may coincide after deduplication (`Registry.LabelsMayCollide`, `Registry.DashFreeLabelsMayCollide`):
  exactly when a description equals another node's name or a label already spells out what qualifies another
  (`Registry.LabelsCoincideIff`). A selector can miss an eligible matching node when another node of the same name
  stands for it (`Registry.SelectorSeesRepresentative`, `Registry.HiddenMatchIsMissed`).
- An active source whose stream falls back to Connecting never pauses capture (`Demand.ActiveClockRunsIff`,
  `Demand.ReconnectingNeverPauses`).

## Model

| member | source | states |
|---|---|---|
| RingWorld.TagsNeverRunAhead | crates/noire-pipewire/src/bypass.rs:159-243 | in every interleaving, queued tags never decrease and never exceed the shared generation |
| RingWorld.BlocksFit | crates/noire-pipewire/src/bypass.rs:197-215 | in every interleaving occupancy stays within 9216, and a block whose slots were counted is never refused half-way |
| RingWorld.StretchIsAccounted | crates/noire-pipewire/src/bypass.rs:188-243 | between two pushes of one generation the stream positions differ by the pushes plus exactly the samples the closed gate withheld |
| RingTheorems.SessionIsAccounted | crates/noire-pipewire/src/bypass.rs:351-440 | what is delivered while `startup_ready` holds carries the consumer's generation and skips exactly the withheld samples |
| RingTheorems.SessionIsGapFreeIffGateStayedOpen | crates/noire-pipewire/src/bypass.rs:188-196 | a delivery session is one gap-free run of the offered samples if and only if the gate withheld nothing meanwhile |
| RingTheorems.SessionIsGapFreeIffNothingWithheld | crates/noire-pipewire/src/bypass.rs:188-196 | the same said of the gate: gap-free if and only if no offered block met the closed gate between the pushes of the first and the last delivered sample |
| RingExamples.GateLeavesAGap | crates/noire-pipewire/src/bypass.rs:188-196 | a concrete run whose session lacks the sample withheld in between |
| RingTheorems.GapFreeSessionIsAPieceOfTheStream | crates/noire-pipewire/src/bypass.rs:380-440 | a gap-free session is literally a slice of the samples offered to the producer |
| RingTheorems.SessionFadesInFromSilence | crates/noire-pipewire/src/bypass.rs:336-440 | the k-th delivered sample of a session is heard at gain step min(k+1, 240), until an oversized request mutes the rest |
| RingTheorems.SilentBetweenSessions | crates/noire-pipewire/src/bypass.rs:443-477 | outside a session the ramp is silent or the consumer's generation is already behind |
| RingTheorems.ClearIsFinal | crates/noire-pipewire/src/source.rs:348-361 | once a command check ran after a CLEAR or DISCARD was scheduled, nothing that was in the ring at the scheduling is delivered, however commands race and the producer pushes |
| RingTheorems.CommandsAccumulate | crates/noire-pipewire/src/source.rs:345-361 | between two checks a CLEAR is pending exactly if one was scheduled, and nothing is pending exactly if nothing was, in every order of racing threads |
| RingTheorems.ScheduledClearIsObeyed | crates/noire-pipewire/src/source.rs:345-361 | once scheduled, a CLEAR is what the next check takes, whatever else is scheduled, and nothing that was in the ring or in a block in flight at the scheduling is delivered after it |
| RingTheorems.ScheduledDiscardIsObeyed | crates/noire-pipewire/src/source.rs:345-361 | once scheduled, a DISCARD is what the next check takes, unless a CLEAR joined it |
| RingTheorems.CommandIsTakenOnce | crates/noire-pipewire/src/source.rs:491-498 | after a check, further checks change nothing until something is scheduled again |
| RingTheorems.ClearFencesTheBlockInFlight | crates/noire-pipewire/src/bypass.rs:443-466 | after a clear only samples tagged with later generations are delivered, so the block in flight is stopped too |
| RingTheorems.RingAccounting | crates/noire-pipewire/src/bypass.rs:197-243 | produced samples are exactly the queued, the discarded and the popped ones, and at most 9216 are queued |
| RingFills.FillCompletesIff | crates/noire-pipewire/src/bypass.rs:380-440 | a fill with its n samples queued delivers them exactly if they are all of the consumer's generation, whatever other threads do meanwhile; otherwise the session is over |
| RingFills.FillNeverStarvesIff | crates/noire-pipewire/src/bypass.rs:380-440 | a fill is safe in every continuation if and only if its n samples are queued and of its generation |
| RingFills.ReadyFillCompletesIff | crates/noire-pipewire/src/bypass.rs:380-440 | a fill of a running session first drops the stale prefix, then the same rule decides |
| RingFills.FillAfterLeadingSilence | crates/noire-pipewire/src/bypass.rs:353-440 | on the processed channel, the fill after the leading silence never underflows when n samples of its generation were queued at the silence: it delivers exactly those, unless a command or a resync came before it synchronises, and then it stays silent |
| RingFills.CalmSilenceQueuesAFrame | crates/noire-pipewire/src/bypass.rs:353-378 | a calm startup of the processed channel meets that condition for every request of at most 512 |
| RingFills.FirstBypassFillKeepsTheReserve | crates/noire-pipewire/src/bypass.rs:353-406 | once the startup count is met, the bypass channel's first delivering fill completes if and only if its n oldest samples are of its generation, and then at least 512 stay queued; a calm startup meets the condition |
| RingExamples.StaleBlockStarvesAStartup | crates/noire-pipewire/src/bypass.rs:353-406 | a concrete run in which a startup with a stale block in flight underflows without any resync during the fill |
| RingFills.UnderflowFadeFinishesIff | crates/noire-pipewire/src/bypass.rs:408-420 | an underflow's fade reaches silence in its own callback if and only if the ramp was silent or the request is at least as long as the gain step; in any case, whatever happens between the two fills, the next one starts from silence at the newest generation |
| RingExamples.ShortBufferCutsTheFade | crates/noire-pipewire/src/bypass.rs:408-420 | a concrete run that underflows at gain step 240 in a callback of one sample and does not reach silence |
| RingTheorems.RunIsMonotone | crates/noire-pipewire/src/bypass.rs:159-167 | generations, the push history, and command marks only grow along every run |
| BypassCaptureSinks.BypassCaptureSink.WriteProcessed | crates/noire-pipewire/src/bypass.rs:188-231 | under arbitrary interference a block enters whole, in order, under one generation read during the call; or not at all: withheld by the gate, or refused with a newer generation requested, and then only if it did not fit at the call |
| BypassCaptureSinks.BypassCaptureSink.PushAll | crates/noire-pipewire/src/bypass.rs:202-219 | all pushes of a fitting block succeed and append exactly the stamped block |
| BypassCaptureSinks.BypassCaptureSink.Prepare | crates/noire-pipewire/src/bypass.rs:197-201 | the tag is a generation current during the call, and the block is pushed exactly if it fits into the free slots, else an overflow |
| BypassCaptureSinks.BypassCaptureSink.RecordOverflow | crates/noire-pipewire/src/bypass.rs:233-243 | an overflow pushes nothing and advances the generation |
| BypassOutputs.BypassOutput.Fill | crates/noire-pipewire/src/bypass.rs:336-440 | one callback is a run of the ring machine; it publishes startup silence, exactly what the session delivered, or the fade of the held sample from the ramp as it stood, and an oversized request silences only the ramp |
| BypassOutputs.BypassOutput.SynchronizeGeneration | crates/noire-pipewire/src/bypass.rs:468-477 | adopts the shared generation; a new one ends the session, restores the leading silence, clears the scratch and silences the ramp, and an unchanged one changes none of these |
| BypassOutputs.BypassOutput.DiscardStalePrefix | crates/noire-pipewire/src/bypass.rs:479-491 | against a concurrent producer, afterwards the head carries the consumer's tag or the ring is empty, and only samples of other generations were dropped |
| BypassOutputs.BypassOutput.Starve | crates/noire-pipewire/src/bypass.rs:408-423 | an underflow ends the session, requests a generation, and renders the held sample into the fault fade |
| BypassOutputs.BypassOutput.DiscardPendingSensitive | crates/noire-pipewire/src/bypass.rs:454-466 | leaves no queued, scratch or ramp-held audio and keeps the generation |
| BypassOutputs.BypassOutput.ClearSensitive | crates/noire-pipewire/src/bypass.rs:443-447 | additionally moves the consumer to a generation newer than the one at the call |
| BypassOutputs.BypassOutput.ApplyAudioCommand | crates/noire-pipewire/src/source.rs:491-498 | takes the scheduled command exactly once and obeys it before the next fill |
| FaultRamps.FaultRamp.Process | crates/noire-dsp/src/fault.rs:125-164 | the rendered block and the ramp state equal the rendering functions; a shape error yields silence and a silent ramp |
| FaultRamps.AfterAllAppends | crates/noire-dsp/src/fault.rs:125-164 | rendering two blocks is rendering their concatenation |
| FaultRamps.FadeInFromSilence | crates/noire-dsp/src/fault.rs:101-105 | a recovery from silence renders sample k at gain step min(k+1, 240) |
| FaultRamps.SilenceMutes | crates/noire-dsp/src/fault.rs:108-112 | a silent ramp renders zeros and stays silent |
| FaultRamps.FadeOutSteps | crates/noire-dsp/src/fault.rs:94-98 | a fading ramp loses one gain step per sample and is silent after its last |
| FaultRamps.RecoveryReachesUnityIff | crates/noire-dsp/src/fault.rs:101-105 | a recovery reverses any fade and is back at unity exactly after 240 - step samples |
| FaultRamps.GainMovesOneStep | crates/noire-dsp/src/fault.rs:178-201 | consecutive gains are neighbours in the table in every state |
| FaultRamps.PresentAudioIsClickBounded | crates/noire-dsp/src/fault.rs:166-201 | with present input, each output step exceeds the input step by at most one gain step plus 2 * MIN_NORMAL of flushing, also when a fault or a recovery begins between the samples |
| FaultRamps.UnderflowJump | crates/noire-dsp/src/fault.rs:140-176 | the first sample of an underflow differs from the last output by exactly that output times one minus the gain one step down |
| FaultRamps.UnderflowFromUnityIsClickFree | crates/noire-dsp/src/fault.rs:140-176 | from unity gain that jump stays below the click threshold |
| FaultRamps.UnderflowDuringFadeInClicks | crates/noire-dsp/src/fault.rs:140-176 | for every gain table, an underflow half-way through a fade-in of unit input jumps by more than 0.2 |
| Seqlock.AdoptedIsNeverTorn | crates/noire-pipewire/src/live.rs:503-527 | if no update is in progress at any adopting read, the adopted strength, enablement and policy are those after one completed update, and the ramp heads for that strength, or for 0 if not enabled |
| Seqlock.AdoptionIsLatestUnlessTwoOverlap | crates/noire-pipewire/src/live.rs:503-527 | in any run, an adopting read with no update in progress takes the latest completed parameters, and anything else needs two updates in progress at that read; the ramp heads for what was adopted |
| Seqlock.ExclusiveIsSettled | crates/noire-pipewire/src/live.rs:251-255 | updates that never overlap leave none in progress at any adopting read |
| Seqlock.AdoptionIsMonotone | crates/noire-pipewire/src/live.rs:503-527 | adopted epochs never go back, however updates overlap |
| Seqlock.QuietReadAdoptsTheLatest | crates/noire-pipewire/src/live.rs:503-527 | after any history, an undisturbed read with no update in progress adopts the latest completed update |
| Seqlock.LastStoreDecides | crates/noire-pipewire/src/live.rs:220-255 | however updates interleave, each parameter is what the last store for it says: clamped strength, non-finite as dry |
| Seqlock.SwitchIsHeard | crates/noire-pipewire/src/live.rs:516-526 | once suppression was last switched off, an undisturbed read heads for strength 0; last switched on, for the stored strength |
| Seqlock.EpochCountsBumps | crates/noire-pipewire/src/live.rs:220-255 | in every run, also beyond its wrap, the epoch is the number of bumps modulo 2^64 and even when nobody updates |
| Seqlock.OverlappingUpdatesTear | crates/noire-pipewire/src/live.rs:251-255 | a concrete overlap of two updates whose half-done state is adopted |
| LiveParameters.LiveControl.Update | crates/noire-pipewire/src/live.rs:220-255 | unless another thread updates in between, exactly the requested change becomes the latest completed one, between two epoch bumps, however the callback reads meanwhile |
| LiveParameters.ParameterReader.LoadParameters | crates/noire-pipewire/src/live.rs:503-527 | under arbitrary interference the read is a run of the machine and adopts only at an even epoch that still stands; undisturbed it adopts the current parameters exactly if they are new and no update is in progress; the ramp heads for the adopted strength, or for 0 if not enabled |
| LiveParameters.ParameterReader.Adopt | crates/noire-pipewire/src/live.rs:516-526 | the policy and the epoch are those of what was read, and the ramp heads for its strength, or for 0 if not enabled |
| Framing.FrameAssembler.Push | crates/noire-dsp/src/frame.rs:80-112 | emits exactly the complete 512-sample frames of carry plus sanitized input and keeps the rest; an oversized input changes nothing |
| Framing.FramesAppend | crates/noire-dsp/src/frame.rs:80-112 | cutting a stream in two calls is cutting it in one |
| Framing.FrameAt | crates/noire-dsp/src/frame.rs:80-112 | there are floor(n/512) frames and frame k is the k-th slice of the stream |
| Framing.FramesConserve | crates/noire-dsp/src/frame.rs:80-112 | frames and rest together are the input: nothing lost, repeated or reordered |
| DryDelayLine.DryDelay.Process | crates/noire-dsp/src/delay.rs:92-121 | the circular buffer publishes the input behind its history and keeps the last samples as the new history |
| DryDelayLine.DryDelay.Reset | crates/noire-dsp/src/delay.rs:81-84 | the history becomes silence |
| DryDelayLine.DelayIsChunkFree | crates/noire-dsp/src/delay.rs:92-121 | delaying two chunks is delaying their concatenation |
| DryDelayLine.DelayIsExact | crates/noire-dsp/src/delay.rs:92-121 | output sample j of a fresh line is input sample j - d, or silence, and the kept history are the last d input samples |
| DryDelayLine.Create | crates/noire-dsp/src/delay.rs:44-52 | a delay beyond the bound is refused, any other yields a silent line |
| Strength.StrengthRamp.SetTarget | crates/noire-dsp/src/ramp.rs:45-58 | retargets from the current strength over at least 960 samples and stays on track |
| Strength.StrengthRamp.Next | crates/noire-dsp/src/ramp.rs:62-73 | one step towards the target, landing on it exactly |
| Strength.LandsExactly | crates/noire-dsp/src/ramp.rs:45-73 | the strength is a new target exactly from max(requested, 960) samples on |
| Strength.Mix | crates/noire-dsp/src/ramp.rs:358-376 | the sanitized blend below the ceiling, counting replacements and ceiling hits |
| Strength.MixIsNearest | crates/noire-dsp/src/ramp.rs:358-376 | for any samples and strength, the output is the full-scale value nearest to the flushed linear blend |
| Strength.MixCountsExactly | crates/noire-dsp/src/ramp.rs:358-376 | the replaced ones among the dry sample, the wet sample and the blend are counted by kind, and limiting exactly if the output differs from the blend |
| Strength.UnitIsNearest | crates/noire-dsp/src/ramp.rs:383-389 | strengths act as the nearest of the unit interval, and non-finite ones as dry |
| Strength.TicksAreGood | crates/noire-dsp/src/ramp.rs:45-73 | along every run of `set_target` and `next` the strength stays in the unit interval and moves by at most 1/960 |
| Strength.CeilingNeverHit | crates/noire-dsp/src/ramp.rs:358-376 | blending full-scale dry and wet samples never reaches the ceiling |
| Strength.ClickBound | crates/noire-dsp/src/ramp.rs:45-73 | each adjacent step of the mixed output exceeds the larger of the dry and wet steps by at most 2/960 + 2 * MIN_NORMAL (flushing), below the click threshold |
| LiveStream.LiveSinkComputesTheStream | crates/noire-pipewire/src/live.rs:530-739 | from any cleared sink, for any callbacks with any parameters read on the way, a healthy path offers exactly the first floor(n/512) blocks of mix(input delayed by d, model output, strength sequence), the strengths steered by each read before the frames its callback completes |
| LiveStream.FixedParametersComputeTheStream | crates/noire-pipewire/src/live.rs:530-739 | with parameters that stay put, block k is mixed from the starting ramp advanced by 512 k samples, however the input is cut |
| LiveRuns.EveryRunIsTheStream | crates/noire-pipewire/src/live.rs:530-739 | for every model and ring, all callbacks and all parameter reads: the stream's blocks until the first failure and the delayed input after it as each policy says, the model called for exactly the frames up to it, and the state naming what failed |
| LiveRuns.ResetSeparatesGenerations | crates/noire-pipewire/src/live.rs:474-501 | after any run and a reset, the model sees only, and while healthy all, frames of the samples received since, and what is published since are their blocks behind a silent delay line |
| LiveRuns.FreshIsClean | crates/noire-pipewire/src/live.rs:430-472 | a new sink holds nothing, fails closed and stays fully wet until told otherwise |
| LiveRuns.LastReadDecides | crates/noire-pipewire/src/live.rs:503-527 | policy and target strength are those of the last adopting read |
| LiveRuns.SteeringTakes960Samples | crates/noire-pipewire/src/live.rs:516-526 | an adopted strength is reached after exactly 960 samples |
| LiveRuns.MixFollowsTheLine | crates/noire-pipewire/src/live.rs:612-651 | sample i of a frame is mixed i + 1 steps along a straight line that ends on the target |
| LiveGenerations.SinkKnowsOneGeneration | crates/noire-pipewire/src/capture.rs:298-433 | in every interleaving of advances and callbacks, model, assembler and delay line know exactly what was delivered under the current generation |
| LiveStream.SplitIsInvisible | crates/noire-pipewire/src/live.rs:660-739 | the split into callbacks is invisible for every model, every ring, and every failure on the way |
| LiveStream.WritesMerge | crates/noire-pipewire/src/live.rs:660-739 | two callbacks are one callback on the joined samples |
| LiveStream.LatchMatchesState | crates/noire-pipewire/src/live.rs:486-501 | at every callback boundary `failed` holds exactly if the state is ModelFailed or TransportFailed |
| LiveStream.FailureIsLatched | crates/noire-pipewire/src/live.rs:549-608 | until a reset, whatever parameters are read, a failed sink never calls the model and keeps its state, and offers exactly those delayed dry blocks whose callback runs under the policy Open |
| LiveStream.OpenFailureKeepsTheDelay | crates/noire-pipewire/src/live.rs:549-569 | the blocks of an open failure, end to end, are the input at the delay it had before |
| LiveSinks.LiveCaptureSink.Write | crates/noire-pipewire/src/live.rs:660-739 | one callback of at most 4096 samples equals the pure callback step |
| LiveSinks.LiveCaptureSink.ProcessFrame | crates/noire-pipewire/src/live.rs:530-651 | one frame through delay, model, mixer and ring equals the pure frame step |
| LiveSinks.LiveCaptureSink.Reset | crates/noire-pipewire/src/live.rs:486-501 | assembler, delay line and model history are empty, the latch is open and the state Running, and parameters, ramp and earlier blocks stay |
| Timing.PercentileNs | crates/noire-pipewire/src/live.rs:274-293 | the scan finds the first bucket whose cumulative count reaches the rank |
| Timing.PercentileIsOrderStatistic | crates/noire-pipewire/src/live.rs:274-293 | for a quiescent snapshot the percentile is the upper edge, (min(d / 50 us, 31) + 1) * 50 us, of the element d of rank max(1, ceil(n p / 100)) in sorted order |
| Timing.PercentileIsMonotone | crates/noire-pipewire/src/live.rs:274-293 | a larger percentile never reports a smaller duration |
| Timing.TornSnapshotReportsTheMaximum | crates/noire-pipewire/src/live.rs:274-293 | a snapshot whose buckets hold fewer than the rank reports the maximum |
| Timing.EdgeIsUpperBoundIff | crates/noire-pipewire/src/live.rs:149-159 | a bucket's edge is above its durations exactly below 1.6 ms, by at most 50 us, and longer durations are reported as 1.6 ms |
| Timing.TimingHistogram.Observe | crates/noire-pipewire/src/live.rs:149-159 | the buckets count the observed durations, and the maximum is one of them |
| Timing.DeadlineWindow.Record | crates/noire-pipewire/src/live.rs:385-396 | degraded exactly if the last required misses lie within one window |
| Capture.NoFrameMixesGenerations | crates/noire-pipewire/src/capture.rs:298-350 | in every interleaving of advances and callbacks, the model's k-th frame of a generation is the k-th 512-sample slice of the samples accepted for it |
| Capture.ResetPrecedesWrites | crates/noire-pipewire/src/capture.rs:416-433 | the sink sees strictly rising resets, and every write belongs to the last one |
| Capture.AdvancesCount | crates/noire-pipewire/src/capture.rs:738-757 | concurrent advances hand out consecutive generations without gap or repetition, until saturation |
| Capture.AdvancesAreDistinctIff | crates/noire-pipewire/src/capture.rs:738-757 | two advances get different generations exactly while the counter has not saturated |
| Capture.DeliveredSamples | crates/noire-pipewire/src/capture.rs:298-370 | sample k of a chunk is decoded from the four bytes at offset + 4 k, and a chunk is refused exactly if it claims samples and is corrupted, not packed, cut, not mapped, or beyond 4096 frames |
| Capture.AcceptedIsCollected | crates/noire-pipewire/src/capture.rs:298-433 | in every interleaving, what reaches the sink under a generation is exactly what the callbacks delivered under it |
| Capture.CaptureProcessor.ProcessMapped | crates/noire-pipewire/src/capture.rs:298-370 | resets the sink for a new generation first, then delivers exactly the decoded sanitized samples of a well-formed chunk of at most 4096 frames, or one error and nothing |
| Capture.CaptureProcessor.ApplyGeneration | crates/noire-pipewire/src/capture.rs:421-433 | a changed generation calls reset exactly once |
| Capture.CaptureProcessor.Sanitize | crates/noire-dsp/src/sanitize.rs:22-41 | replaces invalid samples in place and counts them by kind |
| Samples.SanitizingCountsTheReplaced | crates/noire-dsp/src/sanitize.rs:22-41 | exactly the non-finite and subnormal samples become zero, and their numbers are reported by kind |
| Demand.TransitionsAlternate | crates/noire-pipewire/src/source.rs:519-538 | activations and deactivations alternate, and publication is open exactly while streaming |
| Demand.DeactivationWasQuiet | crates/noire-pipewire/src/source.rs:527-536 | capture pauses only after 500 ms in which no consumer streamed |
| Demand.ActiveClockRunsIff | crates/noire-pipewire/src/source.rs:253-279 | a poll deactivates an active source if and only if at least 500 ms have passed since its stream last left Streaming by more than reconnecting |
| Demand.PollSettles | crates/noire-pipewire/src/source.rs:519-538 | polling the same moment again changes nothing, and a polled streaming source is active |
| Demand.ReconnectingNeverPauses | crates/noire-pipewire/src/source.rs:253-279 | a concrete active source that no poll at any time deactivates |
| Offline.FinishIsReference | crates/noire-model-rnnoise/src/offline.rs:124-198 | for every schedule and every model that worked so far, `finish` reports a model failure exactly if one of the frames still to be flushed fails; otherwise it returns the aligned output of the assembled samples, or reports lost samples exactly if a finite oversized chunk was counted but refused |
| Offline.PushFailsIff | crates/noire-model-rnnoise/src/offline.rs:174-192 | a push reports a model failure exactly if one of the frames it completes is the first to fail |
| Offline.PushRefuses | crates/noire-model-rnnoise/src/offline.rs:124-133 | non-finite input and counter overflow have no effect; a chunk beyond 4096 samples is counted and refused |
| Offline.FlushedIsSilent | crates/noire-model-rnnoise/src/offline.rs:141-172 | what is pushed behind the input is silence |
| Offline.OversizedChunkIsMissed | crates/noire-model-rnnoise/src/offline.rs:124-133 | one finite chunk of 4097 samples is refused, and `finish` then reports lost samples |
| Offline.FinishIgnoresTheSchedule | crates/noire-model-rnnoise/src/offline.rs:141-172 | legal schedules of the same samples finish alike, and succeed exactly if the model works on all flushed frames, with exactly as many samples as accepted |
| Offline.PureDelayIsUndone | crates/noire-model-rnnoise/src/offline.rs:141-172 | for a model that only delays, the result is the input |
| Offline.RnnoiseFrameAssembler.Push | crates/noire-model-rnnoise/src/offline.rs:28-50 | emits exactly the complete 480-sample frames and keeps the rest |
| Offline.OfflineDenoiser.PushChunk | crates/noire-model-rnnoise/src/offline.rs:124-133 | rejects non-finite input and overflow without effect, otherwise counts and processes |
| Offline.OfflineDenoiser.ProcessChunk | crates/noire-model-rnnoise/src/offline.rs:174-192 | feeds complete frames until the first model failure |
| Offline.OfflineDenoiser.Finish | crates/noire-model-rnnoise/src/offline.rs:141-172 | pads, flushes the delay, pads again, and cuts the aligned output |
| ConfigModel.DecodedIsValid | crates/noire-config/src/lib.rs:517-540 | whatever decodes is valid, and a configuration is valid exactly if its canonical text decodes to it |
| ConfigModel.SomeCodecRoundTrips | crates/noire-config/src/lib.rs:517-540 | for any finite set of configurations some codec renders and reads back all of them, and knows undecodable and newer texts |
| ConfigModel.LegacyMigratesIff | crates/noire-config/src/lib.rs:551-574 | a version-0 file migrates exactly if its strength is in range and its input is empty or not blank, keeping its intent |
| ConfigModel.LegacyFileLoadsIff | crates/noire-config/src/lib.rs:517-574 | a version-0 file decodes exactly if its strength is in range and its input is empty or not blank, and then loads as the primary with its activity, enablement, strength and input, and no opt-ins |
| ConfigModel.DecodesByVersion | crates/noire-config/src/lib.rs:517-540 | missing and negative versions are invalid, larger ones newer, and a version-1 file decodes to what it says exactly if that is valid |
| ConfigModel.ValidIff | crates/noire-config/src/lib.rs:257-290 | a valid configuration has schema 1, a strength in the unit interval, and an input identity exactly if one is selected |
| ConfigModel.FirstStartIsOff | crates/noire-config/src/lib.rs:425-480 | without a file the daemon starts inactive with the documented defaults |
| ConfigModel.BlankLegacyInputIsRefused | crates/noire-config/src/lib.rs:551-574 | a version-0 file whose input is one space is refused |
| ConfigModel.LoadedIsValid | crates/noire-config/src/lib.rs:425-480 | loading fails only if the primary is unreadable, and yields a valid configuration otherwise |
| ConfigStores.CrashSafety | crates/noire-config/src/lib.rs:488-509 | along any history of saves, failures and restarts, at every crash point and for every loss of unsynced renames, loading yields the initial configuration or a candidate |
| ConfigStores.OneSaveIsAtomic | crates/noire-config/src/lib.rs:488-509 | at every crash point of one save, loading yields what it yielded before or the candidate |
| ConfigStores.SavedIsDurable | crates/noire-config/src/lib.rs:504-507 | an acknowledged save survives every crash |
| ConfigStores.BackupRecoversPrevious | crates/noire-config/src/lib.rs:499-505 | after two acknowledged saves, an undecodable primary loads as the first candidate |
| ConfigStores.BackupHolds | crates/noire-config/src/lib.rs:499-505 | an acknowledged save leaves a decodable backup: the previous file if it was read and decodes, else the candidate |
| ConfigStores.RefusedButRenamedIff | crates/noire-config/src/lib.rs:504-507 | a refused save has replaced the primary exactly if all its operations succeeded but the last, the directory sync, which failed |
| ConfigStores.RefusedCandidateLoadsIff | crates/noire-config/src/lib.rs:499-506 | any other refused save leaves the next load alone, unless the primary was undecodable and every operation up to the rename of the backup succeeded: then the refused candidate loads |
| ConfigStores.RefusedCandidateComesBack | crates/noire-config/src/lib.rs:499-506 | a concrete undecodable primary and operation failure after which the refused candidate loads |
| ConfigStores.NewerIsPreserved | crates/noire-config/src/lib.rs:488-494 | along any history of saves that read the file they check, failures and restarts, a newer file and its backup stay as they are and every save is refused |
| ConfigStores.NewerIsReplacedIff | crates/noire-config/src/lib.rs:488-509 | an undisturbed save of a valid candidate replaces a newer file exactly if its schema check could not read it |
| ConfigStores.ConfigStore.Save | crates/noire-config/src/lib.rs:488-509 | validation, schema check, backup, primary, sync, in that order; the fates of the operations decide between success, each refusal and a crash, and whether the backup and the primary were replaced |
| ConfigStores.ConfigStore.AtomicWrite | crates/noire-config/src/lib.rs:576-620 | replaces one file whole or leaves both files alone, and gives up on names only when all sixteen are taken |
| ConfigStores.ConfigStore.FillAndRename | crates/noire-config/src/lib.rs:594-603 | renames only after the complete bytes were written and synced |
| DaemonModel.RunIsSerial | crates/noired/src/control.rs:581-635 | every run of any clients ends in the serial execution of its successful requests, in order |
| DaemonModel.LastRequestDecides | crates/noired/src/control.rs:373-558 | after any run, each setting is what the last successful request for it asked for |
| DaemonModel.UntouchedSettingsStay | crates/noired/src/control.rs:373-558 | a setting that no successful request was about keeps its value, and so does everything that no request is about |
| DaemonModel.RepeatedRequestIsNoOp | crates/noired/src/control.rs:373-392 | asking for what already is changes nothing and asks nobody |
| DaemonModel.OutcomeOfCall | crates/noired/src/control.rs:373-635 | a success was applied to the configuration of its expected revision and moved the revision if it changed anything; a refusal left the configuration alone; a stale revision is a conflict |
| DaemonModel.RevisionIdentifiesConfig | crates/noired/src/control.rs:581-635 | below saturation, equal revisions imply equal configurations |
| DaemonModel.NoLostUpdate | crates/noired/src/control.rs:626-635 | once a call changed the configuration, its expected revision is refused for good |
| DaemonModel.SaturationLosesUpdates | crates/noired/src/control.rs:621-623 | at the largest revision two updates based on it both succeed |
| DaemonModel.ConfigStaysValid | crates/noired/src/control.rs:593-595 | every reachable configuration is valid |
| DaemonModel.ReadOnlyNeverSaves | crates/noired/src/control.rs:587-589 | a read-only daemon never hands anything to the store |
| DaemonModel.ReadOnlyKeepsFiles | crates/noired/src/control.rs:587-589 | a daemon that loaded a newer file changes no file and no configuration |
| DaemonModel.EngineAgrees | crates/noired/src/control.rs:596-624 | the engine agrees on activity, input, output and suppression in every run, except after a rejected startup apply or rollback |
| DaemonModel.RestoringCallRestores | crates/noired/src/control.rs:504-519 | the next accepted change, rollback or retry restores agreement from any state |
| DaemonModel.RollbackLeavesTheCandidate | crates/noired/src/control.rs:600-617 | after a rejected rollback the engine holds the refused candidate and agrees exactly if that meant the same audio |
| DaemonModel.RollbackIsReported | crates/noired/src/control.rs:600-617 | a rejected rollback shows as degraded with its fault, under a new revision |
| DaemonModel.AnswersAreShown | crates/noired/src/control.rs:304-340 | clients see the engine's last answer to a poll or a retry, a failing engine as degraded, and a poll bumps the revision exactly if that changed |
| DaemonModel.UnitAgrees | crates/noired/src/control.rs:527-558 | systemd and the configuration agree on launch-at-login unless a refused save could not be undone |
| DaemonModel.BootResumes | crates/noired/src/control.rs:203-244 | a booted daemon would restart from its files as it is, agrees with an accepting engine, and is writable exactly if the file is not newer |
| DaemonModel.BootTakesTheFile | crates/noired/src/control.rs:203-244 | a daemon is active at startup exactly if the loaded file opted in, takes everything else from it, and an accepting engine holds exactly that; a rejecting one leaves it degraded at revision 1 |
| DaemonModel.NextDaemonIsActiveIff | crates/noired/src/control.rs:203-244 | after any run without a leak and any crash, the next daemon has this one's settings and is active exactly if they opted in |
| DaemonModel.RestartResumesIntent | crates/noired/src/control.rs:581-624 | whatever a crash leaves on the disk restarts with this daemon's configuration, as long as no refused save failed only in the directory sync or put a backup in place of an undecodable primary |
| Daemons.Daemon.constructor | crates/noired/src/control.rs:203-244 | the constructed state is the boot state: the loaded configuration, active exactly if it opted in, and held by an accepting engine |
| Daemons.Daemon.Mutate | crates/noired/src/control.rs:581-624 | apply, save, and roll back, step by step, equal to the transaction step, with the store's files changed only by the save it reached |
| Daemons.Daemon.Toggle | crates/noired/src/control.rs:373-392 | start and stop are no-ops when already there |
| Daemons.Daemon.SetStartPreference | crates/noired/src/control.rs:407-428 | saves without touching the engine |
| Daemons.Daemon.SetLaunchAtLogin | crates/noired/src/control.rs:527-558 | systemd first, then the store, then systemd back on a refused save |
| Daemons.Daemon.Retry | crates/noired/src/control.rs:504-519 | re-applies the current configuration |
| Daemons.Daemon.RefreshObservation | crates/noired/src/control.rs:304-340 | bumps the revision exactly if the public state changed |
| Registry.CandidatesAreCanonical | crates/noire-pipewire/src/registry.rs:326-353 | every eligible name is offered exactly once, as default exactly if one of its eligible nodes is |
| Registry.CandidateIsEligible | crates/noire-pipewire/src/registry.rs:326-353 | a candidate is one of the eligible nodes of its name, up to its label |
| Registry.EligibleIff | crates/noire-pipewire/src/registry.rs:150-162 | inputs are available hardware sources that are neither the reserved name nor, in any case, a monitor by name part or description |
| Registry.FirstStandsForItsName | crates/noire-pipewire/src/registry.rs:326-353 | a name is represented by its first eligible default node, else by its first eligible node |
| Registry.FirstDifferenceDecides | crates/noire-pipewire/src/registry.rs:340-346 | labels and names are ordered by their first differing character |
| Registry.OrderAndNumberingDoNotMatter | crates/noire-pipewire/src/registry.rs:326-353 | with distinct names the candidates depend neither on arrival order nor on registry numbering, up to stored IDs |
| Registry.SnapshotIsDetermined | crates/noire-pipewire/src/registry.rs:326-353 | two snapshots of the same nodes show the same candidates |
| Registry.SelectorResolvesIff | crates/noire-pipewire/src/registry.rs:378-402 | without fallback a selector resolves to a candidate exactly if it matches, and fails exactly if none does |
| Registry.PolicyDecides | crates/noire-pipewire/src/registry.rs:378-402 | a match wins, the default comes second if the policy allows it, and otherwise the reason says what is missing |
| Registry.DefaultResolvesIff | crates/noire-pipewire/src/registry.rs:302-402 | following the default resolves exactly if an eligible node has the default's name, and then to that name |
| Registry.SelectionRoundTrips | crates/noire-pipewire/src/registry.rs:164-202 | every offered input is found again by its own selector |
| Registry.SelectorsIdentify | crates/noire-pipewire/src/registry.rs:164-202 | a selector matches by name and serial number, or by name and device where there is no serial number |
| Registry.SelectorSeesRepresentative | crates/noire-pipewire/src/registry.rs:326-402 | over the registry, it resolves exactly if the node standing for its name matches |
| Registry.HiddenMatchIsMissed | crates/noire-pipewire/src/registry.rs:326-402 | two concrete devices of one name, of which the second matches a selector that is not resolved |
| Registry.LabelsMayCollide | crates/noire-pipewire/src/registry.rs:454-487 | three concrete devices of which one label reads like another with its qualifier |
| Registry.DashFreeLabelsMayCollide | crates/noire-pipewire/src/registry.rs:454-487 | three concrete devices of one label, a description of which is the node name of another |
| Registry.LabelsCoincideIff | crates/noire-pipewire/src/registry.rs:454-487 | final labels of distinct nodes coincide exactly if one is qualified by a description that is the name qualifying the other, or the longer label goes on behind the shorter one with a dash and what qualifies it, up to where its own qualification takes over |
| Registry.DashFreeLabelsCoincideIff | crates/noire-pipewire/src/registry.rs:454-487 | for labels without an em dash, exactly the first of the two |
| Registry.DashFreeQualifiersCoincideIff | crates/noire-pipewire/src/registry.rs:454-487 | for qualifying texts without an em dash, exactly the first of the two, or an unambiguous label that spells out an ambiguous one with its qualification |
| Registry.DeduplicateLabels | crates/noire-pipewire/src/registry.rs:454-487 | qualifies exactly the labels that occur more than once, by description if that is unique, else by node name |
| Registry.AmbiguousIff | crates/noire-pipewire/src/registry.rs:454-487 | a label is qualified exactly if another candidate shows the same one, but for case |
| Registry.ByDescriptionIff | crates/noire-pipewire/src/registry.rs:454-487 | the description qualifies exactly if no other node of the label has the same one, but for case |
| Registry.QualifierIsTheRest | crates/noire-pipewire/src/registry.rs:489-512 | a description that repeats the label, in any case, qualifies by the trimmed rest |
| Registry.QualifierFallsBack | crates/noire-pipewire/src/registry.rs:489-512 | otherwise the description qualifies, or the node name if it says no more than the label |
| Registry.TakeSnapshot | crates/noire-pipewire/src/registry.rs:326-353 | one candidate per eligible name, sorted by label then name, labels qualified |
| Registry.OccurrencesAreCounted | crates/noire-pipewire/src/registry.rs:367-374 | the snapshot counts every raw node of a name, offered or not |
| Registry.RegistryMonitor.PublishNow | crates/noire-pipewire/src/registry.rs:302-311 | the snapshot pictures the current nodes in ID order, marked by the current default |
| Registry.RegistryMonitor.PublishIfDue | crates/noire-pipewire/src/registry.rs:292-299 | publishes exactly if the first unpublished change is at least 50 ms old |
| Registry.PollBoundsStaleness | crates/noire-pipewire/src/registry.rs:268-320 | after any poll the published view is current or younger than the debounce window |
| Registry.HoldsTheLatest | crates/noire-pipewire/src/registry.rs:268-288 | the monitor holds exactly the last event's word on every node and on the default |
| Registry.ChangesDoNotPostpone | crates/noire-pipewire/src/registry.rs:292-320 | whatever changes follow, and whatever polls within the window, the first unpublished change keeps its time and its revision; a poll publishes everything, as one revision, exactly from 50 ms after it on |
| WeightFile.ExportUndoesRead | tools/rnnoise-training/train_candidate.py:440-443 | every accepted file is reproduced byte for byte by loading and exporting it |
| WeightFile.ReadUndoesExport | tools/rnnoise-training/train_candidate.py:312-338 | every well-shaped model with dimensions 1 to 127 reads back with its weights quantized and otherwise unchanged |
| WeightFile.QuantizedModelReadsBack | tools/rnnoise-training/train_candidate.py:130-177 | a quantized model reads back exactly |
| WeightFile.AcceptedFilesAreExact | tools/rnnoise-training/train_candidate.py:162-177 | no accepted file is a proper prefix of another: truncated and extended files are rejected |
| WeightFile.LayerLayout | tools/rnnoise-training/train_candidate.py:130-159 | counts and activation code, then kernel, recurrent kernel and bias as signed bytes in units of 1/256, three gates if recurrent |
| WeightFile.AcceptedFilesHoldSixLayers | tools/rnnoise-training/train_candidate.py:162-177 | an accepted file holds six layers, the second to the fourth recurrent |
| WeightFile.ExportSucceedsIff | tools/rnnoise-training/train_candidate.py:312-338 | exporting succeeds exactly if all dimensions are at most 127 and all activations are supported |
| WeightFile.QuantizationIsNearest | tools/rnnoise-training/train_candidate.py:305-309 | quantization is within half a step of the weight inside the byte range and saturates outside it |
| WeightFile.ReadModel | tools/rnnoise-training/train_candidate.py:162-177 | reads six layers with a threaded offset and rejects trailing bytes |
| WeightFile.ExportModel | tools/rnnoise-training/train_candidate.py:312-338 | appends headers and quantized weights, or fails on the first unsupported layer |

## Left out

- PipeWire, SPA, D-Bus, systemd, UI and CLI code, stream construction and buffer mapping: foreign calls and
  presentation.
- Neural inference: an arbitrary deterministic frame model stands for it.
- Weak memory orders: the relaxed and acquire loads are treated as sequentially consistent.
- Float rounding, the sign of zero, `sin`, `exp`: reals and abstract gain tables instead.
- Telemetry, meters, voice activity, counters and error catalogues: they record values and decide nothing that is
  modelled.
- The adaptive strength controllers and the confidence blend in ramp.rs: not on the live path modelled here.
- The wrap of ring generations beyond 64 bits: generations are unbounded naturals.
- Device lists, `last_error` and meter monitoring of the daemon: they decide nothing that is modelled.
- Parsing of node properties and the choice of the preferred label: the registry starts from parsed nodes.
- `reset_input_generation` of the capture processor: only the shared-command path is modelled.
- Creating the configuration directory: its own durability is assumed.
- LiveSinks.LiveCaptureSink.constructor: takes a delay within the bound; the refusal of a larger one is
  `DryDelayLine.Create`.
- BypassOutputs.BypassOutput.Fill: does not publish occupancy and frame counters, because they are telemetry.
- LiveSinks.LiveCaptureSink.Write: the parameter read enters as its outcome, because `Seqlock` proves which outcomes
  are possible.
