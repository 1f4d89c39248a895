# Formal models of the vllm-ascend and speculators tooling

This project models six components and proves what they promise.

- **Offline data generation** (`WorkerPool*.dfy`). One feeder, `2*concurrency` workers, a
  bounded queue, two semaphores, a consecutive-failure counter, a cancel flag and a shutdown by
  sentinels, as a step system in which every stretch of code between two awaits is one step
  (`WorkerPool.dfy`). `WorkerPoolSafety.dfy` holds the invariant, `WorkerPoolResults.dfy` the
  results over whole runs, `WorkerPoolLaws.dfy` what becomes of each sample,
  `WorkerPoolDeadlock.dfy` which configurations can hang, and
  `WorkerPoolProgram.dfy` the coroutines as code over shared objects, proved to refine the steps.
- **AI-QoS apply and unset** (`Qos*.dfy`). Register maps, the baseline in a JSON state file that may
  hold anything, the validator, and the history theorem: unset undoes any history of applies.
- **CPU binding** (`Cpu*.dfy`). Global slices, topology groups, Ascend 950 clusters and role
  splits, with disjointness across processes that never communicate; affinity masks and CPU lists
  as text; the map from process rows to NPU ids; the whole way from the parsed tables of a machine
  to its pools (`CpuSetup.dfy`), and two processes on one machine (`CpuOverlap.dfy`,
  `CpuProcesses.dfy`).
- **MoE communication, padding, index arithmetic** (`Moe*.dfy`, `Compressed.dfy`,
  `NzLayout.dfy`). When ranks that skip the all-reduce agree; the shared mask buffer over any
  history; vectorised compressed positions against the simple loop; three layout routines.
- **Attention entropy** (`Entropy*.dfy`, `Probe.dfy`). The fast form against the naive one over
  real numbers, with masks, grouped heads and concatenated sequences; layer choice per sample and
  per token. The exponential and the logarithm are parameters with four stated laws.
- **Checkpoint stitching** (`Stitch*.dfy`). Splitting fused experts and writing new weights into a
  sharded or a single-file checkpoint; `Stitch.dfy` is the whole run.

Code that works by changing things step by step is modelled by classes, arrays and loops that are
proved equal to specification functions; the results are lemmas about those functions. What such a
function computes is stated once more without it, in numbers, names and counts, in
`WorkerPoolLaws.dfy`, `QosLaws.dfy`, `MoeLaws.dfy`, `CpuShares.dfy`, `CpuRanks.dfy`, `IntText.dfy` and
at the end of `Compressed.dfy` and `Probe.dfy`. Exceptions are `Option`, `Result` or outcome values. `dafny verify dfyconfig.toml` checks the whole project.

## Where the code differs from its documentation

The models follow the code.

- `generate_and_save_hidden_states` counts every sample that was not skipped as saved. With
  `--concurrency 0` there are no workers and the queue is unbounded, so every run returns normally
  and reports everything as saved although nothing was (`ZeroConcurrencyReturns`,
  `NumSavedIsRight`).
- `_shutdown_workers` cancels live workers so as not to deadlock on sentinel puts. A cancel that
  fires while those puts are pending still deadlocks. `HangsExactlyIfExposed` gives the condition on
  the configuration: workers, tolerated failures and at least `4*concurrency + max(threshold, 1)`
  samples. With the default threshold, which is the concurrency, that is five samples for each unit
  of concurrency.
- `_build_topo_affinity_cpu_pool` distributes CPUs over all logical NPUs so that worker processes do
  not overlap. Extended pools that differ but have a CPU in common defeat this
  (`TwoProcessesShare`); `NeverShareExactly` says that nothing else does.
- `_compute_potential_max_tokens` is described as the maximal decode token count. Without capture
  sizes it stops at 512, so decode batches above it are not covered by the skip decision;
  `DecodeCoveredExactly` and `DecodeBatchesAlikeExactly` give the exact condition.
- The description of `select_moe_comm_method` mentions dynamic EPLB and MTP conditions on A3 and an
  EP-size condition on A5; the code tests `enable_fused_mc2`, the EP size, the quantisation and the
  speculative method on A3, and a world size above 1 on A5.
- With a dense drafter beside an MoE main model the skip decision is always true, while the method
  is still selected for the main model, so ranks of one group can select different methods
  (`DenseDrafterDisagrees`); `RanksAgree` says exactly when they do not.
- `_load_first_apply_baseline` treats an unreadable state file as absent, but a readable one whose
  root is not an object stops the apply with an AttributeError (`SetQos`).
- A forward context does not restore the mask of an enclosing one; `OuterMaskSurvives` says when
  the enclosing view is still right.
- `_unfuse_moe_experts` reports a down_proj without gate_up_proj only when some gate_up_proj
  exists; otherwise it returns the weights unchanged.
- `_stitch_single` adds unknown keys that `_stitch_sharded` refuses (`SingleAgreesWithSharded`).
- `as_TH` leaves an (N, T, 1) input transposed when N equals T (`AsTHRecovers`).

## Model

| member | source | states |
|---|---|---|
| `WorkerPoolSafety.InvStep` | repos/speculators-ty5537/scripts/data_generation_offline.py:212-309 | Any step of any coroutine keeps the whole invariant: conservation of samples, permits, sentinels, phases of the main coroutine, the cause of a cancel, the failure history. |
| `WorkerPoolSafety.TrippedAppend` | repos/speculators-ty5537/scripts/data_generation_offline.py:61-64 | One more outcome trips the threshold exactly when it is a failure that completes a long enough trailing run, or an earlier one did. |
| `WorkerPoolResults.ExactlyOnePlace` | repos/speculators-ty5537/scripts/data_generation_offline.py:212-309 | In every reachable state each sample of `to_process` is in exactly one place: unfed, queued, held by one worker, saved, skipped, drained or dropped. |
| `WorkerPoolResults.CountersExact` | repos/speculators-ty5537/scripts/data_generation_offline.py:341-343 | The unfinished-task count is queued plus held; at most `concurrency` workers generate, at most `concurrency` write, the queue never exceeds its bound. |
| `WorkerPoolResults.SentinelsLast` | repos/speculators-ty5537/scripts/data_generation_offline.py:213-216 | A worker leaves only when every sample was fed and none is queued, and exactly one worker leaves for each sentinel taken. |
| `WorkerPoolResults.ReturnSavesEverything` | repos/speculators-ty5537/scripts/data_generation_offline.py:391-396 | A normal return means cancel was never set, saved and skipped split `to_process`, and `num_saved` is the number saved. |
| `WorkerPoolResults.ZeroConcurrencySavesNothing` | repos/speculators-ty5537/scripts/data_generation_offline.py:341-391 | With concurrency 0 some run of any input returns normally having saved and skipped nothing. |
| `WorkerPoolResults.ZeroConcurrencyReturns` | repos/speculators-ty5537/scripts/data_generation_offline.py:341-391 | With concurrency 0 every complete run does. |
| `WorkerPoolResults.NumSavedIsRight` | repos/speculators-ty5537/scripts/data_generation_offline.py:391-396 | Of every returned run: the number reported as saved is the number saved if and only if there are workers or there was nothing to process. |
| `WorkerPoolResults.CancelMeansThreshold` | repos/speculators-ty5537/scripts/data_generation_offline.py:261-271 | `_consecutive` is the trailing failure run in completion order; cancel is set exactly when such a run has reached the threshold, and exactly when a worker has failed. |
| `WorkerPoolResults.CancelIsForever` | repos/speculators-ty5537/scripts/data_generation_offline.py:263-264 | Along any run cancel is never cleared and no recorded outcome or skip is lost. |
| `WorkerPoolResults.CancelledInTimeStep` | repos/speculators-ty5537/scripts/data_generation_offline.py:299-304 | Once cancel is set before the shutdown test, no step puts a sentinel or leaves the cancelled shutdown. |
| `WorkerPoolResults.EndMatchesCancel` | repos/speculators-ty5537/scripts/data_generation_offline.py:309-316 | A finished run raised if and only if cancel was set; only `--fail-on-error` ends it otherwise than by return or raise. |
| `WorkerPoolResults.Progress` | repos/speculators-ty5537/scripts/data_generation_offline.py:277-309 | A reachable unfinished state has an enabled step if and only if it is not the blocked sentinel put. |
| `WorkerPoolResults.StuckOnlyAfterLateCancel` | repos/speculators-ty5537/scripts/data_generation_offline.py:299-308 | That blocked state needs a cancel which fired after the shutdown test, and failures that are tolerated. |
| `WorkerPoolResults.RankNext` | repos/speculators-ty5537/scripts/data_generation_offline.py:212-309 | Every step decreases a natural number. |
| `WorkerPoolResults.RunsAreFinite` | repos/speculators-ty5537/scripts/data_generation_offline.py:212-309 | No run is longer than the measure of its first state. |
| `WorkerPoolResults.UncancelledRunReturns` | repos/speculators-ty5537/scripts/data_generation_offline.py:388-396 | A run that cannot go on and was never cancelled has returned, with every sample saved or skipped. |
| `WorkerPoolResults.CancelInTimeAlwaysRaises` | repos/speculators-ty5537/scripts/data_generation_offline.py:299-316 | If cancel fires before the shutdown test, every complete continuation re-raises a worker's error and puts no sentinel. |
| `WorkerPoolDeadlock.HangsExactlyIfExposed` | repos/speculators-ty5537/scripts/data_generation_offline.py:277-309 | For every configuration: some run hangs if and only if there are workers, failures are tolerated, and there are at least `4*concurrency + max(threshold, 1)` samples. |
| `WorkerPoolDeadlock.StuckIsExposed` | repos/speculators-ty5537/scripts/data_generation_offline.py:306-308 | Any reachable blocked state shows that many samples, because every worker died and the full queue holds a sentinel less than there are workers. |
| `WorkerPoolDeadlock.TallyStep` | repos/speculators-ty5537/scripts/data_generation_offline.py:212-309 | Each step keeps: fed samples plus queued sentinels are what is queued, held, saved, skipped, drained and dropped. |
| `WorkerPoolDeadlock.SkipsStep` | repos/speculators-ty5537/scripts/data_generation_offline.py:254-268 | Each step keeps: every failed worker skipped one sample more than the run of failures that set cancel. |
| `WorkerPoolDeadlock.LateCancelDeadlocks` | repos/speculators-ty5537/scripts/data_generation_offline.py:306-308 | A reachable state with concurrency 1 and six samples in which both workers died, four samples are queued and the main coroutine waits in `queue.put(None)` for good. |
| `WorkerPoolLaws.AfterCancel` | repos/speculators-ty5537/scripts/data_generation_offline.py:219-223 | From the moment cancel is set, over any run: nothing is fed, what was queued stays queued or is drained, and only samples that workers hold go to saved, skipped or dropped. |
| `WorkerPoolLaws.SavedSinceWasHeld` | repos/speculators-ty5537/scripts/data_generation_offline.py:219-271 | A sample saved or skipped after a cancel was held by a worker when the cancel came. |
| `WorkerPoolLaws.FewSavedSince` | repos/speculators-ty5537/scripts/data_generation_offline.py:219-271 | So at most as many are saved or skipped after a cancel as workers held then. |
| `WorkerPoolLaws.QueuedAreDrained` | repos/speculators-ty5537/scripts/data_generation_offline.py:220-223 | A sample queued when a cancel comes is at any later time queued or drained, and the feeder puts no more. |
| `WorkerPoolLaws.AfterShutdown` | repos/speculators-ty5537/scripts/data_generation_offline.py:299-304 | Once the shutdown cancels the workers nothing more is saved, skipped, drained or taken. |
| `WorkerPoolLaws.FedInOrder` | repos/speculators-ty5537/scripts/data_generation_offline.py:279-293 | The queue always holds the samples fed last, oldest first, in the order of `to_process`. |
| `WorkerPoolLaws.OneStage` | repos/speculators-ty5537/scripts/data_generation_offline.py:212-274 | A step moves at most one worker, by one stage of its loop. |
| `WorkerPoolLaws.SavedStages` | repos/speculators-ty5537/scripts/data_generation_offline.py:228-253 | Every saved sample was, in one worker and in this order, waiting for a permit, generated, waiting to write, moved, and loaded and checked if and only if outputs are validated. |
| `WorkerPoolProgram.FailureTracker.constructor` | repos/speculators-ty5537/scripts/data_generation_offline.py:54-56 | A new tracker has seen no outcome. |
| `WorkerPoolProgram.FailureTracker.RecordSuccess` | repos/speculators-ty5537/scripts/data_generation_offline.py:58-59 | Keeps the counter equal to the trailing failure run of all outcomes so far. |
| `WorkerPoolProgram.FailureTracker.RecordFailure` | repos/speculators-ty5537/scripts/data_generation_offline.py:61-64 | The same, and reports exactly whether the run has reached the threshold. |
| `WorkerPoolProgram.MainStretchReachable` | repos/speculators-ty5537/scripts/data_generation_offline.py:277-316 | A stretch of the main coroutine between awaits is a sequence of steps of the step system. |
| `WorkerPoolProgram.Pool.constructor` | repos/speculators-ty5537/scripts/data_generation_offline.py:341-386 | The objects `generate_and_save_hidden_states` creates are the initial state. |
| `WorkerPoolProgram.Pool.FeedQueue` | repos/speculators-ty5537/scripts/data_generation_offline.py:279-293 | The feed loop up to its next wait is the feeder's stretch of the step system. |
| `WorkerPoolProgram.Pool.SendSentinels` | repos/speculators-ty5537/scripts/data_generation_offline.py:307-308 | The sentinel loop up to its next wait likewise. |
| `WorkerPoolProgram.Pool.ShutdownWorkers` | repos/speculators-ty5537/scripts/data_generation_offline.py:296-309 | The shutdown test takes the cancelling or the sentinel branch exactly as the step system does. |
| `WorkerPoolProgram.Pool.StepMain` | repos/speculators-ty5537/scripts/data_generation_offline.py:286-316 | What the main coroutine does first when resumed, including the choice between raising and returning. |
| `WorkerPoolProgram.Pool.ResumeMain` | repos/speculators-ty5537/scripts/data_generation_offline.py:388-389 | The resumed main coroutine ends in the state of its stretch. |
| `WorkerPoolProgram.Pool.Take` | repos/speculators-ty5537/scripts/data_generation_offline.py:213-223 | `queue.get()` returning a sentinel, a sample, or a sample to drain. |
| `WorkerPoolProgram.Pool.Enter` | repos/speculators-ty5537/scripts/data_generation_offline.py:228-240 | Entering a semaphore takes one permit and moves the worker on. |
| `WorkerPoolProgram.Pool.Resume` | repos/speculators-ty5537/scripts/data_generation_offline.py:228-253 | An awaited call returning normally moves the worker to its next await or finishes the sample. |
| `WorkerPoolProgram.Pool.Finish` | repos/speculators-ty5537/scripts/data_generation_offline.py:269-274 | The else and finally clauses: success recorded, permit and task returned, sample saved. |
| `WorkerPoolProgram.Pool.Raise` | repos/speculators-ty5537/scripts/data_generation_offline.py:254-268 | A failed call ends the process, or skips the sample and trips the cancel flag at the threshold. |
| `WorkerPoolProgram.Pool.CountFailure` | repos/speculators-ty5537/scripts/data_generation_offline.py:261-264 | Skips the sample and sets cancel exactly at the threshold. |
| `WorkerPoolProgram.Pool.Retire` | repos/speculators-ty5537/scripts/data_generation_offline.py:265-274 | The worker dies if the threshold was reached, otherwise goes on; permit and task are returned either way. |
| `WorkerPoolProgram.Pool.Cancel` | repos/speculators-ty5537/scripts/data_generation_offline.py:302-304 | A cancelled worker returns its permit and its task and drops its sample. |
| `WorkerPoolProgram.Pool.Dispatch` | repos/speculators-ty5537/scripts/data_generation_offline.py:319-391 | Whatever coroutine the event loop resumes, the objects stay in a reachable state of the step system. |
| `QosHistory.MergeAt` | repos/vllm-ascend/tools/ai_qos.py:224-246 | Merging captures a device that is not recorded in full and changes no other entry. |
| `QosHistory.BaselineNeverOverwritten` | repos/vllm-ascend/tools/ai_qos.py:231-246 | A recorded device keeps its recorded values through any merge. |
| `QosHistory.ApplySound` | repos/vllm-ascend/tools/ai_qos.py:340-436 | An apply keeps the baseline complete for every recorded device and the named bandwidth register the same. |
| `QosHistory.ApplyKeepsRestored` | repos/vllm-ascend/tools/ai_qos.py:340-436 | An apply does not change what writing the baseline back would give. |
| `QosHistory.UnsetUndoesEveryHistory` | repos/vllm-ascend/tools/ai_qos.py:270-436 | After any history of applies (any devices, any priorities), unsets and foreign changes to unrecorded registers, unset leaves exactly the registers that history leaves without the tool. |
| `QosHistory.ApplyUnsetIdentity` | repos/vllm-ascend/tools/ai_qos.py:270-436 | Any sequence of applies and unsets followed by unset is the identity on all registers. |
| `QosState.ParseAndValidate` | repos/vllm-ascend/tools/ai_qos.py:56-121 | Accepts exactly the valid shapes, numbers in every spelling `int()` takes included; what it returns is read from the file entry by entry. |
| `QosState.CanonicalReads` | repos/vllm-ascend/tools/ai_qos.py:86-93 | When the device keys are written by `str()` there is exactly one such reading. |
| `QosState.ValidateDevices` | repos/vllm-ascend/tools/ai_qos.py:73-93 | The nested loop over devices and masters accepts exactly valid dicts; keys become `str(int(key))`, and of devices that collide one is kept whole. |
| `QosState.ValidateTuples` | repos/vllm-ascend/tools/ai_qos.py:95-119 | The loop over one dict of tuples likewise. |
| `QosState.StateRoundTrip` | repos/vllm-ascend/tools/ai_qos.py:424-436 | What apply serialises is valid and decodes to the same baseline and commands. |
| `QosState.WrittenFileAccepted` | repos/vllm-ascend/tools/ai_qos.py:56-121 | Unset's validator accepts every file an apply writes. |
| `QosState.UnionDecodes` | repos/vllm-ascend/tools/ai_qos.py:238-246 | Adding entries to the unchecked dicts of a file adds them to the baseline the file stands for. |
| `QosLaws.TunedApplied` | repos/vllm-ascend/tools/ai_qos.py:367-420 | Register by register: masters 11 and 12 get the weaker of the two AIV levels (1, 3, 5), 13 the weaker SDMA level (2, 4, 6), 7 the PCIE level (0, 7); mpamid, pmg and mode stay; the bandwidth register the SDMA master names is (0, 1, 0), fuse is (1, 1, 1); no other register changes. |
| `QosLaws.ApplyApplies` | repos/vllm-ascend/tools/ai_qos.py:340-420 | The same of one event of a history; a middle PCIE priority changes nothing. |
| `QosLaws.NewDeviceRecorded` | repos/vllm-ascend/tools/ai_qos.py:178-246 | The written file holds, under its literal names, the numbers the registers of a new device held, in order. |
| `QosLaws.OldDeviceKept` | repos/vllm-ascend/tools/ai_qos.py:231-246 | What the file holds for a recorded device is written again as it was. |
| `QosLaws.LoadExactly` | repos/vllm-ascend/tools/ai_qos.py:249-267 | Which files have no baseline, which stop the apply, and which dicts are taken from the others. |
| `QosLaws.ValidExactly` | repos/vllm-ascend/tools/ai_qos.py:56-121 | The files unset accepts: lists of five, four and three numbers under numeric keys, and a list of strings. |
| `QosLaws.OldFileValid` | repos/vllm-ascend/tools/ai_qos.py:56-72 | A file without the two optional sections is accepted when its device part is. |
| `QosLaws.NumbersAre` | repos/vllm-ascend/tools/ai_qos.py:86-89 | What counts as a number in a list. |
| `QosLaws.TruncateDropsFraction` | repos/vllm-ascend/tools/ai_qos.py:86-89 | A float is read without its fraction. |
| `IntText.StrDigit` | repos/vllm-ascend/tools/ai_qos.py:237-246 | Digit k of the text of a number counts 10 to the k, without leading zeros. |
| `IntText.BlanksIgnored` | repos/vllm-ascend/tools/ai_qos.py:73-76 | Blanks around a number are ignored. |
| `IntText.SignedNumber` | repos/vllm-ascend/tools/ai_qos.py:73-76 | A sign may stand in front. |
| `IntText.UnderscoreIgnored` | repos/vllm-ascend/tools/ai_qos.py:73-76 | An underscore between digits is ignored. |
| `IntText.OnlyNumbersRead` | repos/vllm-ascend/tools/ai_qos.py:73-76 | Nothing but digits with single underscores between them is read. |
| `IntText.PlainDigitsRead` | repos/vllm-ascend/vllm_ascend/cpu_binding.py:99-101 | Plain digits are read from the left, leading zeros too. |
| `QosFile.LoadIntact` | repos/vllm-ascend/tools/ai_qos.py:249-267 | A file an apply wrote loads as the dicts of its baseline. |
| `QosFile.RawMergeDecodes` | repos/vllm-ascend/tools/ai_qos.py:224-246 | Merging into the unchecked dicts is merging into the baseline they stand for. |
| `QosFile.NextIntact` | repos/vllm-ascend/tools/ai_qos.py:340-436 | An apply on such a file, or on none, writes such a file again, holding the merged baseline. |
| `QosRestore.ReadRestorable` | repos/vllm-ascend/tools/ai_qos.py:270-309 | What the validator returns can be written back entry by entry: canonical device keys, whole tuples, numeric master keys. |
| `QosRestore.QosNext` | repos/vllm-ascend/tools/ai_qos.py:294-299 | One more device written back, whatever its master keys: each register gets a value recorded for it or stays. |
| `QosRestore.SoundWritesBack` | repos/vllm-ascend/tools/ai_qos.py:284-309 | For a recorded baseline there is one way to write it back, the restored registers. |
| `QosProgram.AiqosTool.constructor` | repos/vllm-ascend/tools/ai_qos.py:322-338 | The tool starts on the given registers and any state file. |
| `QosProgram.AiqosTool.CaptureDevice` | repos/vllm-ascend/tools/ai_qos.py:182-191 | The inner capture loop records each readable master of a device. |
| `QosProgram.AiqosTool.CaptureOriginalQos` | repos/vllm-ascend/tools/ai_qos.py:178-192 | The capture loop over devices computes the QoS part of the baseline. |
| `QosProgram.AiqosTool.CaptureOriginalBw` | repos/vllm-ascend/tools/ai_qos.py:195-210 | The bandwidth register named by the SDMA master is captured, unread devices are skipped. |
| `QosProgram.AiqosTool.CaptureOriginalFuse` | repos/vllm-ascend/tools/ai_qos.py:213-221 | The fuse registers likewise. |
| `QosProgram.AiqosTool.MergeBaseline` | repos/vllm-ascend/tools/ai_qos.py:224-246 | The merge loops add the captures of devices missing from some dict, without looking into the entries. |
| `QosProgram.AiqosTool.TuneMaster` | repos/vllm-ascend/tools/ai_qos.py:406-420 | One master that can be read is rewritten with its new level; SDMA also sets its bandwidth register. |
| `QosProgram.AiqosTool.TuneDevice` | repos/vllm-ascend/tools/ai_qos.py:404-420 | The tuning of one device changes exactly its registers, those that exist. |
| `QosProgram.AiqosTool.TuneAll` | repos/vllm-ascend/tools/ai_qos.py:404-420 | The tuning loop over all devices, repeated ids included. |
| `QosProgram.AiqosTool.SetQos` | repos/vllm-ascend/tools/ai_qos.py:340-436 | A whole apply on any registers and any state file: the new registers and file, the AttributeError of a file that is no object, the TypeError of a missing table row before any write; on an intact file it is the apply of the histories. |
| `QosProgram.AiqosTool.RestoreBw` | repos/vllm-ascend/tools/ai_qos.py:284-292 | Each recorded bandwidth register gets its recorded value. |
| `QosProgram.AiqosTool.RestoreMasters` | repos/vllm-ascend/tools/ai_qos.py:296-299 | Each recorded master of a device gets a value recorded for it, no other register changes. |
| `QosProgram.AiqosTool.RestoreQos` | repos/vllm-ascend/tools/ai_qos.py:294-299 | The same over all devices. |
| `QosProgram.AiqosTool.RestoreFuse` | repos/vllm-ascend/tools/ai_qos.py:301-309 | Each recorded fuse register gets its recorded value. |
| `QosProgram.AiqosTool.RunUnset` | repos/vllm-ascend/tools/ai_qos.py:270-319 | Unset on any state file: a valid one, edited or not, is written back entry by entry and removed; a missing or invalid one changes no register; on an intact file it is the unset of the histories. |
| `CpuLists.AscendingUnique` | repos/vllm-ascend/vllm_ascend/cpu_binding.py:461 | Two ascending lists with the same elements are equal, so the order in which a cpuset is reported does not matter. |
| `CpuSlices.SlicesConcatenate` | repos/vllm-ascend/vllm_ascend/cpu_binding.py:505-512 | The global slices in id order concatenate to the sorted cpuset. |
| `CpuSlices.TotalNpusIs` | repos/vllm-ascend/vllm_ascend/cpu_binding.py:467-473 | The machine size: logical NPUs, else those of the topology table, else the visible ones. |
| `CpuSlices.SlicesBalanced` | repos/vllm-ascend/vllm_ascend/cpu_binding.py:475-512 | Two slices differ in size by at most one, the earlier the larger, none below the even share. |
| `CpuSlices.SlicesDisjoint` | repos/vllm-ascend/vllm_ascend/cpu_binding.py:505-512 | Slices of different NPUs share no CPU. |
| `CpuSlices.GlobalBuildFacts` | repos/vllm-ascend/vllm_ascend/cpu_binding.py:444-517 | A successful build gives every visible NPU its slice, never below the minimum, and nothing else. |
| `CpuSlices.GlobalPoolsAgree` | repos/vllm-ascend/vllm_ascend/cpu_binding.py:444-517 | Processes with the same cpuset and machine size but different visible NPUs agree on every NPU and give different NPUs disjoint CPUs. |
| `CpuSlices.RolesPartition` | repos/vllm-ascend/vllm_ascend/cpu_binding.py:606-623 | The roles partition a pool in order: two IRQ CPUs if they are bound, one acl and one release CPU at the end, main in between and never empty. |
| `CpuTopo.ExtendAllFacts` | repos/vllm-ascend/vllm_ascend/cpu_binding.py:575-582 | Every candidate gets an extended pool of allowed CPUs that contains its own affine CPUs. |
| `CpuTopo.GroupPartitionsPool` | repos/vllm-ascend/vllm_ascend/cpu_binding.py:259-268 | The shares of the NPUs with one extended pool concatenate to that pool, sorted. |
| `CpuTopo.SamePoolDisjoint` | repos/vllm-ascend/vllm_ascend/cpu_binding.py:584-591 | Two NPUs with the same extended pool get disjoint CPUs. |
| `CpuShares.TopoShares` | repos/vllm-ascend/vllm_ascend/cpu_binding.py:259-268 | Of k NPUs with one extended pool of n CPUs every one gets n / k, except that the one with the largest id gets what is left, fewer than n / k + k. |
| `CpuShares.SharesAscend` | repos/vllm-ascend/vllm_ascend/cpu_binding.py:259-268 | In the order of their ids they get ascending parts of the sorted pool. |
| `CpuShares.CandidatesAre` | repos/vllm-ascend/vllm_ascend/cpu_binding.py:563-578 | Candidates are the visible NPUs and those with an affine CPU in the cpuset; the base of each is its affine CPUs in the cpuset. |
| `CpuShares.ExtendOneNpu` | repos/vllm-ascend/vllm_ascend/cpu_binding.py:270-282 | An extended pool holds the base and, if that is on one node u, the cpuset's CPUs on node u + 1 modulo the number of nodes. |
| `CpuShares.ExtendedPools` | repos/vllm-ascend/vllm_ascend/cpu_binding.py:575-582 | So does every extended pool of a build; the number of nodes is that of lscpu if its nodes have no gaps. |
| `CpuTopo.TopoEntries` | repos/vllm-ascend/vllm_ascend/cpu_binding.py:556-593 | Every visible NPU has an entry; its CPUs are allowed and inside its extended pool. |
| `CpuTopo.TopoPoolsAgree` | repos/vllm-ascend/vllm_ascend/cpu_binding.py:563-593 | Two processes with the same cpuset and topology that both succeed agree on every NPU, and NPUs with equal extended pools get disjoint CPUs across the processes. |
| `CpuOverlap.PoolUsedUp` | repos/vllm-ascend/vllm_ascend/cpu_binding.py:259-268 | Every CPU of an extended pool is given to some NPU with that pool. |
| `CpuOverlap.ApartExactly` | repos/vllm-ascend/vllm_ascend/cpu_binding.py:584-591 | The final pools of all candidates are pairwise disjoint if and only if any two extended pools are equal or have no CPU in common. |
| `CpuOverlap.SameStart` | repos/vllm-ascend/vllm_ascend/cpu_binding.py:563-593 | Every process that succeeds takes its pools from the same extended pools, whatever it sees. |
| `CpuOverlap.NeverShareExactly` | repos/vllm-ascend/vllm_ascend/cpu_binding.py:563-593 | No two processes on a machine ever give a CPU to two different NPUs if and only if any two extended pools are equal or have no CPU in common. |
| `CpuOverlap.TwoProcessesShare` | repos/vllm-ascend/vllm_ascend/cpu_binding.py:563 | A machine of three NUMA nodes on which two processes that both succeed give CPU 2 to different NPUs. |
| `CpuClusters.PoolIsCluster` | repos/vllm-ascend/vllm_ascend/cpu_binding.py:410-431 | Each Ascend 950 pool is one full cluster of allowed CPUs of the NPU's own NUMA node, outside the UVB pool. |
| `CpuRanks.NodeMapHolds` | repos/vllm-ascend/vllm_ascend/cpu_binding.py:284-295 | The two maps hold exactly the rows of lscpu. |
| `CpuRanks.NodeMapInOrder` | repos/vllm-ascend/vllm_ascend/cpu_binding.py:284-295 | A node lists its CPUs in the order of the rows. |
| `CpuRanks.NodeOfExactly` | repos/vllm-ascend/vllm_ascend/cpu_binding.py:330-336 | An NPU is on node u if and only if it has affine CPUs in the cpuset and all of them are on u. |
| `CpuRanks.UvbHolds` | repos/vllm-ascend/vllm_ascend/cpu_binding.py:338-341 | The UVB pool is the cpuset's CPUs of node 0 but CPU 0. |
| `CpuRanks.ClusterSizeIs` | repos/vllm-ascend/vllm_ascend/cpu_binding.py:319-328 | A cluster has 8 CPUs with one thread for each core, 16 with two, and no other number is supported. |
| `CpuRanks.ClusterByRank` | repos/vllm-ascend/vllm_ascend/cpu_binding.py:413-433 | The NPU with r smaller ids on its node gets exactly the usable CPUs with ranks from r * size up to (r + 1) * size. |
| `CpuRanks.FitsExactly` | repos/vllm-ascend/vllm_ascend/cpu_binding.py:396-431 | All candidates get clusters if and only if each is on one node and every node has `size` usable CPUs for each of its candidates. |
| `CpuClusters.PoolsDisjoint` | repos/vllm-ascend/vllm_ascend/cpu_binding.py:410-431 | Pools of different NPUs are disjoint, on one node or on two. |
| `CpuClusters.SameAssignment` | repos/vllm-ascend/vllm_ascend/cpu_binding.py:377-442 | Two processes that both succeed compute the same pool for every NPU, whatever they see. |
| `CpuProgram.NodeMapConsistent` | repos/vllm-ascend/vllm_ascend/cpu_binding.py:284-295 | When lscpu lists each CPU once, the two maps agree. |
| `CpuProgram.CpuAlloc.constructor` | repos/vllm-ascend/vllm_ascend/cpu_binding.py:208-218 | The allocator starts with empty maps. |
| `CpuProgram.CpuAlloc.BuildCpuNodeMap` | repos/vllm-ascend/vllm_ascend/cpu_binding.py:284-297 | The loop files every row under its CPU and its node; it raises exactly when there is no row. |
| `CpuProgram.CpuAlloc.BuildGlobalSlice` | repos/vllm-ascend/vllm_ascend/cpu_binding.py:444-517 | The method computes the global build, including its early returns and errors. |
| `CpuProgram.CpuAlloc.AssignRoles` | repos/vllm-ascend/vllm_ascend/cpu_binding.py:610-623 | One pool is split into its roles. |
| `CpuProgram.CpuAlloc.AllocateDefaultRoles` | repos/vllm-ascend/vllm_ascend/cpu_binding.py:606-623 | Raises exactly when some pool is below the minimum; otherwise every NPU has the roles of its pool. |
| `CpuProgram.CpuAlloc.ExtendPools` | repos/vllm-ascend/vllm_ascend/cpu_binding.py:575-582 | The extending loop, including the entries its reads add to the node dict. |
| `CpuProgram.CpuAlloc.GroupByPool` | repos/vllm-ascend/vllm_ascend/cpu_binding.py:584-586 | The groups are the candidates with equal pools, in order. |
| `CpuProgram.CpuAlloc.AverageDistribute` | repos/vllm-ascend/vllm_ascend/cpu_binding.py:259-268 | Gives each NPU of a group its consecutive share and leaves the rest of the result alone. |
| `CpuProgram.CpuAlloc.Distribute` | repos/vllm-ascend/vllm_ascend/cpu_binding.py:588-591 | Every candidate ends with its final pool, in any order of the groups. |
| `CpuProgram.CpuAlloc.BuildFromTopology` | repos/vllm-ascend/vllm_ascend/cpu_binding.py:563-593 | The topology mode computes `TopoBuild` and keeps only visible NPUs. |
| `CpuProgram.CpuAlloc.BuildTopoAffinity` | repos/vllm-ascend/vllm_ascend/cpu_binding.py:556-593 | Without topology data the mode falls back to global slices. |
| `CpuProgram.CpuAlloc.BuildCpuPools` | repos/vllm-ascend/vllm_ascend/cpu_binding.py:538-554 | Each mode gives its own build of the parsed rows; only Ascend 950 declines, and then no pool is set. |
| `CpuProgram.CpuAlloc.ReserveUvbPool` | repos/vllm-ascend/vllm_ascend/cpu_binding.py:338-341 | The UVB pool is node 0 inside the cpuset without CPU 0. |
| `CpuProgram.CpuAlloc.GroupByNode` | repos/vllm-ascend/vllm_ascend/cpu_binding.py:396-410 | Groups candidates by NUMA node and stops at the first one without a single node. |
| `CpuProgram.CpuAlloc.AssignNode` | repos/vllm-ascend/vllm_ascend/cpu_binding.py:413-433 | One node: declines exactly with too few clusters, otherwise its NPUs get clusters by rank. |
| `CpuProgram.CpuAlloc.AssignNodes` | repos/vllm-ascend/vllm_ascend/cpu_binding.py:412-433 | All nodes, in any order of the dict. |
| `CpuProgram.CpuAlloc.Build950` | repos/vllm-ascend/vllm_ascend/cpu_binding.py:377-442 | The outcome is exactly as declared by its conditions; success gives each visible NPU its cluster, every other outcome leaves the pool map unchanged. |
| `CpuSetup.RunningAreLogical` | repos/vllm-ascend/vllm_ascend/cpu_binding.py:62-70 | Running and logical NPUs are read from one map, so every running NPU is a logical one and the machine has at least one. |
| `CpuSetup.ReadOnce` | repos/vllm-ascend/vllm_ascend/cpu_binding.py:62-70 | The tables determine the device. |
| `CpuSetup.ReadDevice` | repos/vllm-ascend/vllm_ascend/cpu_binding.py:62-70 | Reading succeeds if and only if every process row names a chip of the map and some process is visible; the device then has exactly the ids of the map and the visible resolved ids. |
| `CpuSetup.BuildFromMachine` | repos/vllm-ascend/vllm_ascend/cpu_binding.py:538-554 | From any tables to the pools: the outcome is that of the mode, and success gives its pools. |
| `CpuSetup.SlicesFailExactly` | repos/vllm-ascend/vllm_ascend/cpu_binding.py:475-517 | Global slicing raises if and only if there are too few CPUs for the NPUs or an id beyond their number. |
| `CpuSetup.TopoFailsExactly` | repos/vllm-ascend/vllm_ascend/cpu_binding.py:575-582 | Topology mode raises if and only if some candidate has no affine CPU in the cpuset, or one lscpu does not list. |
| `CpuSetup.SiftRaises` | repos/vllm-ascend/vllm_ascend/cpu_binding.py:396-410 | Ascend 950 grouping raises if and only if the first candidate not on a single node has a CPU lscpu does not list. |
| `CpuSetup.OutcomeExactly` | repos/vllm-ascend/vllm_ascend/cpu_binding.py:377-554 | For all tables: when a build raises and when it declines, in terms of the tables. |
| `CpuSetup.VisibleServed` | repos/vllm-ascend/vllm_ascend/cpu_binding.py:538-554 | In every mode a successful build serves exactly the visible NPUs with CPUs of the cpuset, except for global slicing of an empty cpuset, which serves none. |
| `CpuProcesses.ProcessesAgree` | repos/vllm-ascend/vllm_ascend/cpu_binding.py:377-593 | Two processes with the same tables that see different NPUs and both succeed give one NPU the same CPUs in every mode, and different NPUs disjoint CPUs: always for global slices, on Ascend 950 when lscpu lists each CPU once, in topology mode when extended pools are equal or apart. |
| `CpuText.CpuToMask` | repos/vllm-ascend/vllm_ascend/cpu_binding.py:220-227 | Read back as comma-separated 32-bit groups, most significant first, the mask is 2 to the power of the CPU, in groups of eight digits. |
| `CpuText.ExpandCpuList` | repos/vllm-ascend/vllm_ascend/cpu_binding.py:80-88 | The loop expands every entry, numbers as `int()` reads them, or fails on the first malformed one. |
| `CpuText.ExpandUndoesPrint` | repos/vllm-ascend/vllm_ascend/cpu_binding.py:80-88 | Expanding the printed ranges of any nonempty CPU list gives the list back. |
| `CpuText.RunsAreMaximal` | repos/vllm-ascend/vllm_ascend/cpu_binding.py:80-88 | For an ascending list the printed ranges are maximal. |
| `CpuDevices.BoardIds` | repos/vllm-ascend/vllm_ascend/cpu_binding.py:99-101 | The numbers among the chip entries of one board. |
| `CpuDevices.AllLogicNpus` | repos/vllm-ascend/vllm_ascend/cpu_binding.py:90-102 | Every logical id of the map, once and ascending. |
| `CpuDevices.ResolvesExactly` | repos/vllm-ascend/vllm_ascend/cpu_binding.py:134-147 | A process row resolves to the entry of its chip, or to the only entry of its board when it names none. |
| `CpuDevices.ResolvedIsLogical` | repos/vllm-ascend/vllm_ascend/cpu_binding.py:134-147 | Whatever a process row resolves to is one of the logical ids. |
| `CpuDevices.RunningNpus` | repos/vllm-ascend/vllm_ascend/cpu_binding.py:149-181 | The running NPUs are exactly the resolved visible ids, ascending and all logical; it raises exactly when a row does not resolve or none is left. |
| `MoeSelect.SelectBelow` | repos/vllm-ascend/vllm_ascend/ascend_forward_context.py:240-359 | "Needs MC2" is downward closed in the token count on every device type, with one method all the way down. |
| `MoeSelect.SkippedRanksAgree` | repos/vllm-ascend/vllm_ascend/utils.py:1230-1275 | When ranks skip the all-reduce, any two token counts up to the checked bound select the same method, MC2 or its fused form. |
| `MoeSelect.ConsideredFacts` | repos/vllm-ascend/vllm_ascend/worker/model_runner_v1.py:665-713 | The count a rank selects for is its own when skipping and the maximum of the group otherwise, padded or not. |
| `MoeSelect.SelectAlike` | repos/vllm-ascend/vllm_ascend/ascend_forward_context.py:240-359 | Two token counts get the same method, or fail alike, if and only if they lie on one side of the capacity or the configuration has no threshold. |
| `MoeLaws.MethodExactly` | repos/vllm-ascend/vllm_ascend/ascend_forward_context.py:240-359 | For each method and each error, exactly which devices, parallel sizes, capacities and token counts give it. |
| `MoeLaws.SkipExactly` | repos/vllm-ascend/vllm_ascend/utils.py:1230-1275 | Exactly when the all-reduce is skipped, and when deciding it fails. |
| `MoeLaws.PotentialExactly` | repos/vllm-ascend/vllm_ascend/utils.py:1173-1207 | The potential maximum: the largest capture size and the decode batch within the batch limit, or the decode batch up to 512. |
| `MoeLaws.CapacityExactly` | repos/vllm-ascend/vllm_ascend/ascend_forward_context.py:202-217 | The capacity: the least multiple of tp for the configured tokens, up to 512 for each rank. |
| `MoeSelect.RanksAgree` | repos/vllm-ascend/vllm_ascend/worker/model_runner_v1.py:678-713 | Any two ranks of a group select alike if and only if they exchanged counts, or their own counts lie on one side of the capacity. |
| `MoeSelect.CoveredRanksAgree` | repos/vllm-ascend/vllm_ascend/worker/model_runner_v1.py:678-713 | For an MoE pass that skips, counts up to the checked bound lie on one side, so all ranks agree. |
| `MoeSelect.DenseDrafterDisagrees` | repos/vllm-ascend/vllm_ascend/utils.py:1230-1275 | A dense drafter beside an MoE main model skips, and two ranks select different methods. |
| `MoeSelect.DecodeCoveredExactly` | repos/vllm-ascend/vllm_ascend/utils.py:1173-1207 | Under a skip every decode batch is on MC2 if and only if capture sizes are configured, the decode maximum is at most 512 or the capacity, or fused prefill is on. |
| `MoeSelect.DecodeBatchesAlikeExactly` | repos/vllm-ascend/vllm_ascend/utils.py:1173-1207 | Any two decode batches of ranks that skip select alike if and only if that condition holds. |
| `MoeSelect.UncoveredDecodeDisagrees` | repos/vllm-ascend/vllm_ascend/utils.py:1205-1206 | A configuration, with the capacity computed for it, in which two decoding ranks that skip select different methods. |
| `MoeSelect.CapacityFacts` | repos/vllm-ascend/vllm_ascend/ascend_forward_context.py:212-217 | The capacity is the least multiple of tp for the tokens, capped at 512 per rank. |
| `MoeSelect.RoundUpIsLeast` | repos/vllm-ascend/vllm_ascend/utils.py:299-306 | Rounding up gives the least multiple that is large enough. |
| `MoeContext.Runtime.constructor` | repos/vllm-ascend/vllm_ascend/ascend_forward_context.py:198-199 | Nothing is set at the start. |
| `MoeContext.Runtime.SetCapacity` | repos/vllm-ascend/vllm_ascend/ascend_forward_context.py:202-217 | The capacity is set once and never again. |
| `MoeContext.Runtime.SetPotentialMaxTokens` | repos/vllm-ascend/vllm_ascend/utils.py:1216-1221 | The potential maximum is set once and never again. |
| `MoeContext.Runtime.SetMask` | repos/vllm-ascend/vllm_ascend/ascend_forward_context.py:224-233 | The buffer is allocated once, all false, for MoE models only. |
| `MoeContext.Runtime.Pad` | repos/vllm-ascend/vllm_ascend/ascend_forward_context.py:141-185 | The padded count is the least multiple of tp for the largest count of the group; with padding on, tokens plus pad size are exactly it. |
| `MoeContext.Runtime.WriteMask` | repos/vllm-ascend/vllm_ascend/ascend_forward_context.py:187-191 | The view shows exactly the actual tokens, whatever the buffer held. |
| `MoeContext.Runtime.Enter` | repos/vllm-ascend/vllm_ascend/ascend_forward_context.py:97-191 | One pass: the method is exactly that of the largest count told, padding and mask together; with an error the buffer is untouched. |
| `MoeContext.PadToMultiple` | repos/vllm-ascend/vllm_ascend/ascend_forward_context.py:143 | A rank's own pad size completes its count to the least multiple of tp. |
| `MoeContext.PaddedAlike` | repos/vllm-ascend/vllm_ascend/ascend_forward_context.py:164-172 | Ranks that exchanged counts pad to the same multiple of tp, which holds the count of every rank. |
| `MoeContext.BitAfter` | repos/vllm-ascend/vllm_ascend/ascend_forward_context.py:187-191 | After any history each bit belongs to the last pass whose view reaches it. |
| `MoeContext.CurrentMaskRight` | repos/vllm-ascend/vllm_ascend/ascend_forward_context.py:187-191 | After any history the current view shows no stale bit. |
| `MoeContext.OuterMaskSurvives` | repos/vllm-ascend/vllm_ascend/ascend_forward_context.py:187-195 | The view of an enclosing pass is still right after an inner one if and only if both masks agree on the shared part. |
| `Compressed.PositionsOneByOne` | repos/vllm-ascend/vllm_ascend/utils.py:1673-1677 | The prefix-sum positions equal the ranges of the requests one after another. |
| `Compressed.OwnPositions` | repos/vllm-ascend/vllm_ascend/utils.py:1673-1679 | Request i of a batch owns exactly its own range among the positions. |
| `Compressed.EveryPositionOnce` | repos/vllm-ascend/vllm_ascend/utils.py:1661-1677 | Over any run whose steps continue each other a request receives 0, 1, 2, ... once each in order, up to its compressed total. |
| `Compressed.PositionsStandForTokens` | repos/vllm-ascend/vllm_ascend/utils.py:1661-1677 | Over any run there is one position for each full group of `ratio` tokens. |
| `Compressed.CountsStand` | repos/vllm-ascend/vllm_ascend/utils.py:1656-1668 | The lengths and new counts of a batch are differences of such numbers. |
| `Compressed.EntryOf` | repos/vllm-ascend/vllm_ascend/utils.py:1673-1679 | Entry t of request i in the batch is its start plus t, with its own index. |
| `Compressed.PositionsAndIndices` | repos/vllm-ascend/vllm_ascend/utils.py:1617-1683 | Each group gets its positions, indices and counts; asserts fail exactly on unequal shapes or negative counts, `np.repeat` exactly when the index array has another length and the batch is not a single request. |
| `Compressed.BroadcastIs` | repos/vllm-ascend/vllm_ascend/utils.py:1660-1680 | One entry for each index: its own count, or the single count of a batch of one request. |
| `NzLayout.NzIndexThere` | repos/vllm-ascend/vllm_ascend/utils.py:350-369 | Every padded cell has its own flat position. |
| `NzLayout.NzIndexBack` | repos/vllm-ascend/vllm_ascend/utils.py:350-369 | Every flat position is that of one padded cell. |
| `NzLayout.NzEntry` | repos/vllm-ascend/vllm_ascend/utils.py:350-382 | Entry (n1, m, n0) is column 16*n1+n0 of row m, or zero padding. |
| `NzLayout.NzUnique` | repos/vllm-ascend/vllm_ascend/utils.py:350-382 | Any two tensors in NZ form of one matrix are the same tensor, so the two routines agree entry by entry. |
| `NzLayout.NzRecovers` | repos/vllm-ascend/vllm_ascend/utils.py:350-382 | The matrix can be read back from its NZ form. |
| `NzLayout.NdToNz2d` | repos/vllm-ascend/vllm_ascend/utils.py:350-369 | Padding, reshaping and transposing gives the NZ form. |
| `NzLayout.CopyIntoCorner` | repos/vllm-ascend/vllm_ascend/utils.py:379-380 | The slice assignment fills the corner of the zeroed buffer and nothing else. |
| `NzLayout.NdToNzSpec` | repos/vllm-ascend/vllm_ascend/utils.py:372-382 | The buffer version gives the same NZ form. |
| `NzLayout.TransFits` | repos/vllm-ascend/vllm_ascend/utils.py:1587-1606 | The assert fails exactly below two axes; the reshape succeeds if and only if both sides are whole blocks or the tensor is empty, for any leading axes. |
| `NzLayout.TransEach` | repos/vllm-ascend/vllm_ascend/utils.py:1587-1608 | Every matrix along the leading axes is rearranged on its own, in either block width. |
| `NzLayout.BlockEntry` | repos/vllm-ascend/vllm_ascend/utils.py:1601-1608 | Entry n0 of a row in a block column is the cell of that row in that column of the block. |
| `NzLayout.TransIsNz` | repos/vllm-ascend/vllm_ascend/utils.py:1587-1608 | For whole 16-wide blocks every matrix along the leading axes is in NZ form, with the row axis split in two. |
| `Entropy.DotWeighted` | scripts/verify_lse_entropy.py:14-15 | The product with the attention over the keys is the probability-weighted sum of the scores. |
| `Entropy.DotIsSum` | scripts/verify_lse_entropy.py:14-15 | A product of vectors is the sum of the products of their coordinates. |
| `Entropy.SoftmaxFacts` | scripts/verify_lse_entropy.py:55 | Probabilities sum to one and are positive exactly on kept keys. |
| `Entropy.FastIsPure` | scripts/verify_lse_entropy.py:8-19 | Without the clamp `lse - scale*<q, O^K>` is the entropy, for every q, k, scale and mask that keeps a key. |
| `Entropy.FastIsNaive` | scripts/verify_lse_entropy.py:39-57 | The fast form is never below the clamped reference and equals it if and only if every kept probability reaches 1e-30. |
| `EntropyHeads.ExpandHeadsAt` | scripts/verify_lse_entropy.py:47-48 | Expanding grouped key heads gives each query head the key head of its group. |
| `EntropyHeads.RowsAgree` | scripts/verify_lse_entropy.py:94-96 | With keys as values the operator's row gives the reference log-sum-exp, and the entropy exactly when the clamp is inert. |
| `EntropyHeads.FusedEntropyIsReference` | scripts/verify_lse_entropy.py:39-57 | The same for every head and row of grouped heads. |
| `EntropyTnd.MaskedTermsVanish` | scripts/verify_lse_entropy.py:52-56 | A masked key adds exactly nothing to the normaliser and to the clamped entropy sum. |
| `EntropyTnd.WindowRow` | scripts/verify_lse_entropy.py:52-57 | Keys outside a window that are all masked may be left out: entropy and log-sum-exp are unchanged. |
| `EntropyTnd.PassReads` | scripts/verify_lse_tnd.py:43-53 | A row reads its own query, the keys of its head's group, and of those the tokens of its sequence, not later ones if causal. |
| `EntropyTnd.BlockOfWindow` | scripts/verify_lse_tnd.py:43-46 | The slices of the sequences partition the rows in order. |
| `EntropyTnd.SliceRowIsPassRow` | scripts/verify_lse_tnd.py:45-56 | A row of a sequence on its own is the row of one pass with the block-diagonal mask. |
| `EntropyTnd.RefPerSequence` | scripts/verify_lse_tnd.py:37-60 | The loop over sequences returns the entropies and log-sum-exps of that single pass. |
| `EntropyTnd.FusedTndIsReference` | scripts/verify_lse_tnd.py:106-109 | On concatenated sequences too the fast form is the reference exactly when the clamp is inert. |
| `EntropyTnd.AsTHRecovers` | scripts/verify_lse_tnd.py:97-103 | (T, heads) is always recovered from (T, N) and (T, N, 1), and from (N, T, 1) if and only if heads differ from T or the array is its own transpose. |
| `Probe.CandidatesHaveScores` | scripts/probe_layer_stats.py:68-70 | The candidates are exactly layers 2 to below 40%, ascending, each with a layer below. |
| `Probe.ScoreMatrix` | scripts/probe_layer_stats.py:172-179 | Every entry is its token score, infinity in row 0. |
| `Probe.SampleScoreBelowTokenMean` | scripts/probe_layer_stats.py:166-179 | The sample score of a layer is at most the mean of its token scores. |
| `Probe.PickIsFirstLeast` | scripts/probe_layer_stats.py:182-185 | The pick of a token is the first candidate with the least score, and layer 0 only when it is the only one. |
| `Probe.PickCostsLeast` | scripts/probe_layer_stats.py:166-185 | The pick of a token is the first candidate with the least entropy plus the size of the step from the layer below. |
| `Probe.SampleCostsLeast` | scripts/probe_layer_stats.py:166-260 | The sample pick likewise, of mean entropies. |
| `Probe.PicksBeatFixedLayer` | scripts/probe_layer_stats.py:182-185 | Token-by-token picks are on average never worse than any one candidate layer. |
| `Probe.PickSampleIsFirstLeast` | scripts/probe_layer_stats.py:260 | The sample pick is the first candidate with the least score. |
| `Probe.SamplePick` | scripts/probe_layer_stats.py:258-260 | For the real candidates no missing score is compared, and the picked score is at most the mean token score of every candidate. |
| `StitchExperts.NameInjective` | repos/speculators-ty5537/scripts/stitch_mtp.py:130-132 | No two expert tensors get the same name, even from different prefixes. |
| `StitchExperts.FileTensors` | repos/speculators-ty5537/scripts/stitch_mtp.py:103-111 | Every tensor is filed as gate_up, down or other. |
| `StitchExperts.UnfuseOne` | repos/speculators-ty5537/scripts/stitch_mtp.py:129-132 | All experts of a prefix are split, gate, up and down under their written-out names, and no other name changes. |
| `StitchExperts.UnfuseAll` | repos/speculators-ty5537/scripts/stitch_mtp.py:116-134 | The loop over prefixes, in any order, or the first error it meets: a missing down_proj, unequal counts, or a tensor with too few axes. |
| `StitchExperts.Unfuse` | repos/speculators-ty5537/scripts/stitch_mtp.py:92-142 | For tensors of any rank: without gate_up tensors the weights come back as they are; otherwise it succeeds exactly when all fused tensors pair up and have the axes that are split, and the result is complete. |
| `StitchExperts.RejoinRebuilds` | repos/speculators-ty5537/scripts/stitch_mtp.py:127-132 | Rejoining what stands under the written-out gate and up names, and under the down names, rebuilds both fused tensors. |
| `StitchExperts.SplitIsExpertsAt` | repos/speculators-ty5537/scripts/stitch_mtp.py:127-132 | The first half of the fused rows is under gate_proj, the rest under up_proj, the down rows under down_proj. |
| `StitchExperts.OthersAsText` | repos/speculators-ty5537/scripts/stitch_mtp.py:53-54 | The tensors that are left alone are those with neither fused name. |
| `StitchExperts.FrozenFiltered` | repos/speculators-ty5537/scripts/stitch_mtp.py:51-89 | Exactly the embeddings and the output head are filtered out. |
| `StitchExperts.FrozenStayOut` | repos/speculators-ty5537/scripts/stitch_mtp.py:86-89 | Frozen keys that were filtered out do not come back as expert names. |
| `StitchShards.ViewOverridden` | repos/speculators-ty5537/scripts/stitch_mtp.py:219-231 | The merged view after the sharded update is the old view overridden by the new weights, with the same keys, and stays consistent. |
| `StitchShards.Checkpoint.GroupByFile` | repos/speculators-ty5537/scripts/stitch_mtp.py:208-217 | Fails exactly when a key is not in the index; otherwise every file gets exactly its new weights. |
| `StitchShards.Checkpoint.RewriteFile` | repos/speculators-ty5537/scripts/stitch_mtp.py:222-230 | One file becomes its old tensors overridden by the new ones, metadata kept. |
| `StitchShards.Checkpoint.StitchSharded` | repos/speculators-ty5537/scripts/stitch_mtp.py:199-231 | An unknown key stops before any file is written; success updates every file, in any order; a missing file leaves the others updated or untouched. |
| `StitchShards.Checkpoint.StitchSingle` | repos/speculators-ty5537/scripts/stitch_mtp.py:234-245 | The one file is overridden without any check of the keys. |
| `StitchShards.SingleAgreesWithSharded` | repos/speculators-ty5537/scripts/stitch_mtp.py:199-245 | For one file both routes agree if and only if every new key is already known. |
| `Stitch.Prepare` | repos/speculators-ty5537/scripts/stitch_mtp.py:269-276 | Filtering and splitting succeed if and only if the fused tensors that are left pair up. |
| `Stitch.RenameAll` | repos/speculators-ty5537/scripts/stitch_mtp.py:277 | Every weight is there under its new name and nothing else is. |
| `Stitch.StitchAll` | repos/speculators-ty5537/scripts/stitch_mtp.py:248-301 | The whole run with any renaming: an unsplittable tensor or an unknown key stops before any file is written; otherwise the files are the old ones with the native weights written, in both kinds of checkpoint. |
| `Stitch.StitchedView` | repos/speculators-ty5537/scripts/stitch_mtp.py:269-286 | With a renaming that keeps names apart the sharded checkpoint is the old one with exactly the split weights put over it; frozen weights stay the old ones. |
| `Stitch.ExpertsInView` | repos/speculators-ty5537/scripts/stitch_mtp.py:127-132 | Every part of every expert is then in the checkpoint under its new name. |
| `Stitch.ExpertsInViewAsText` | repos/speculators-ty5537/scripts/stitch_mtp.py:127-132 | The same with the names of the expert tensors written out. |
| `Stitch.StitchedSingle` | repos/speculators-ty5537/scripts/stitch_mtp.py:287-290 | A checkpoint of one file takes the weights in the same way and adds names it did not have. |

## Left out

Worker pool
- Fairness of the event loop, the semaphores and the queue: any enabled coroutine may be resumed. Progress and termination hold for every order.
- Sleeping in the feeder: the retry on a full queue is a blocked step that is enabled again when there is room or cancel is set.
- Awaited calls are assumed to let a cancellation through; retries inside the client, the progress bar, logging and the model-name check are not modelled.
- An exception raised by the dataset or by `build_client_item` in the feeder is not modelled; the functions live in files that are not part of this model.
- A sample whose validation fails after its file was moved counts as skipped although the file exists.
- `get_indices_to_process` is not part of this model; `to_process` is a parameter.

AI-QoS
- A driver call succeeds exactly on registers that exist. Recovery after some baseline reads failed is left out of the histories, because a later merge then captures changed values.
- Switch-side commands are a parameter: only those of the last apply are stored, so they have no whole-history rollback.
- NaN and Infinity, which Python's JSON accepts and whose `int()` is an OverflowError or a ValueError; digits outside ASCII; the length limit of `int()`.
- Of several keys that stand for one number the last of the file wins; dicts are maps here, so any of them may.
- Failures of removing or writing the state file.
- Reading the visible device list from the environment.

CPU binding
- Subprocess calls, npu-smi, lscpu and /proc parsing: the parsed tables are inputs. taskset, IRQ writes and memory migration are not modelled.
- The Ascend 950 role step copies each pool to the main role and is left out.
- Digits outside ASCII in CPU lists.

MoE, padding and layouts
- `num_tokens` is a number: the branch for None is left out. Batch, graph and prefetch fields of the context are not modelled.
- Process-group sizes, device type and configuration values are parameters; tp is positive.
- Integer widths of the NumPy arrays.
- Optimistic positions that are corrected later are two independent calls.
- Hardware format casts.

Entropy and probe
- Floating point, bf16, tolerances and the order of summation: all arithmetic is over reals. Rows that keep no key, which give NaN.
- The batch axis of the attention arrays, along which the same computation is repeated.
- The fused operator is modelled by its documented meaning, softmax attention with log-sum-exp over the keys of the group.
- EntropyTnd.AsTHRecovers: covers the three layouts the script names; a third axis other than 1 is not modelled.
- Norms, quantiles, outliers and the hooks of the probe; `int(0.4 * n)` is the integer part of 2n/5.

Stitching
- `_remap_key`: its tables are in a file that is not part of this model; the renaming is any function.
- Prefixes and keys of tensors do not contain line breaks.
- File copying, downloading and progress bars.
