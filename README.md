# Radar presence example: data manager, frame-rate optimizer and console

This project models the core of Infineon's XENSIV radar presence-detection example in Dafny and proves properties of the model.

**Radar Data Manager (RDM).** The RDM is a single FIFO byte buffer.
- A radar read from an interrupt fills the buffer through the producer's read function.
- Up to four subscriber tasks hold slots 1..4 of a subscription table.
- Once `fill_level` bytes are buffered, `run` notifies every subscriber.
- Each subscriber reads the window at `head` and acknowledges it.
- Once every subscriber has acknowledged, the next `run` slides the unread bytes to the front of the buffer.

**Frame-rate optimizer.** It switches the radar between a low and a high frame-rate configuration. The choice depends on the presence mode the user selected and the last presence state. It calls the reconfiguration callback exactly when its choice changes.

**Console.** Two parts from `cli_task.c` are modelled:
- the string checks behind the `set_mode` and on/off setting commands;
- the key handling of `console_task`. ENTER toggles between presence mode and setting mode, and in setting mode a command line is edited in a 50-byte buffer.

## How the model is organised

| File | Module | What it holds |
|---|---|---|
| `radar_data_management.dfy` | `RadarDataManagement` | The RDM's state as a value `Rdm` and one function per public operation, each with the contract the C code implies. |
| `radar_data_manager.dfy` | `DataManager` | Class `RadarDataManager`, the same operations on mutable fields, proved against those functions (see below). |
| `rdm_properties.dfy` | `RdmProperties` | Lemmas about several operations together, plus two concrete subscription cycles. |
| `rdm_findings.dfy` | `RdmFindings` | The counters of `run` as actually written, and the discrepancy described under Findings. |
| `radar_config_optimizer.dfy` | `RadarConfigOptimizer` | The pure `RequestedOptimization` case analysis and class `Optimizer` over the three fields of `optimizer_state`. |
| `cli_task.dfy` | `CliTask` | The four string helpers, and a step function `Step` on the console loop's variables. Class `ConsoleTask` is proved against `Step`. |
| `radar_presence.dfy` | `RadarPresence` | The two enumerations of the presence library that these files use. |
| `wrappers.dfy` | `Wrappers` | `Option`. |

**How the classes connect to the value model.**
- `RadarDataManager` has the fields of the C `manager` struct. The buffer is an `array?<Byte>`; `null` means no buffer is allocated. The subscription table is an array of five entries, and entry 0 is never used.
- `Model()` reads the fields as an `Rdm`, and `Valid()` is `Inv(Model())`.
- Each method promises `Model() == F(old(Model()))` for its function `F`, and keeps `Valid()`.
- `Run` is built from step methods that follow the C code's blocks:
  - the producer copy, a `forall` statement;
  - the wake loop;
  - the acknowledgement scan;
  - the `memcpy`, a `forall` statement;
  - the acknowledgement reset loop.

**Producer and external calls.**
- `run` calls the producer's `in_read_radar_data`. Here that call becomes a parameter, `ProducerReport(status, count, data)`: the value it returned, the count it wrote, and the bytes it copied to `buffer + tail`.
- The producer promises to copy at most the room it is offered (`xensiv_radar_data_management.h:67-68`). The model requires this as `ProducerHonest`.
- Task handles are natural numbers, and 0 stands for `NULL`.
- The allocation hooks are `Unset`, `Standard` or `Custom(id)`.
- Whether `malloc` succeeds is a parameter of `Init`.

**Observations about the code that the model makes precise.**
- **Unsubscribe.** Unsubscribing a free slot still decrements the subscriber count. So the invariant is only `subscribers <= |occupied slots|`, and `deinit` can succeed while a slot is still taken (`UnsubscribingFreeSlotLosesCount`).
- **Closing reset of `run`.** Reading the code alone, the check at `xensiv_radar_data_management.c:363-372` looks like a reset of a full, fully read buffer. But `head` is 0 whenever it runs. The check therefore fires only while no buffer is allocated, where it changes nothing (`ClosingResetOnlyWithoutBuffer`). The model follows the code.
- **A full command line.** After 50 typed characters the console's buffer holds no NUL. ENTER then passes `FreeRTOS_CLIProcessCommand` a string that runs past the end of `pcInputString` into whatever follows it in memory (`FullLineHasNoTerminator`).
- **Backspace.** Backspace writes a blank, not a NUL. An erased character becomes a trailing blank in the submitted command (`ErasedCharacterBecomesBlank`), so `set_mode macro_onlyx` typed and then corrected with one backspace is compared as `macro_only ` (with a trailing blank).

## Model

| member | source | states |
|---|---|---|
| `RadarDataManagement.Zeroed` | source/xensiv_radar_data_management.c:106 | the static struct before init satisfies the invariant: no buffer, no subscriber, every slot free, hooks unset |
| `RadarDataManagement.FindSlot` | source/xensiv_radar_data_management.c:141-154 | the scan returns the lowest slot in from..4 holding the handle, or 0 when no slot does |
| `RadarDataManagement.Subscribe` | source/xensiv_radar_data_management.c:122-195 | -1 exactly for NULL; a handle already in a slot gets that id back unchanged; a new handle gets -2 exactly when the count is at 4, no buffer exists or no slot is free; otherwise the lowest free slot is claimed with its ack cleared and the count incremented; the invariant is kept |
| `RadarDataManagement.ClaimPreservesInv` | source/xensiv_radar_data_management.c:170-178 | claiming a free slot for a handle not yet subscribed keeps handles distinct and the count within the occupied slots |
| `RadarDataManagement.Unsubscribe` | source/xensiv_radar_data_management.c:202-218 | no-op for an id outside 1..4 or a zero count; otherwise the slot is freed and the count decremented, taken or not; buffer, head, tail and samples unchanged; invariant kept |
| `RadarDataManagement.Ingest` | source/xensiv_radar_data_management.c:234-257 | the producer's bytes land at tail, the bytes before tail and after the copied ones are kept; tail advances by the count exactly on an accepted read (status >= 0 and count within the room), otherwise tail and samples stay |
| `RadarDataManagement.OccupiedFrom` | source/xensiv_radar_data_management.c:265-285 | the slots the wake loop notifies, all within from..4 |
| `RadarDataManagement.Woken` | source/xensiv_radar_data_management.c:260-285 | nobody is woken below the watermark, and every woken id is an occupied slot (completeness and order: `RunWakesEachOccupiedSlotOnce`) |
| `RadarDataManagement.ClearAcks` | source/xensiv_radar_data_management.c:318-325 | every slot 1..4 keeps its handle and has its acknowledgement cleared; slot 0 is untouched |
| `RadarDataManagement.Compact` | source/xensiv_radar_data_management.c:298-327 | the queue adjustment keeps the invariant; samples is recomputed (the corrected behaviour, see Findings) |
| `RadarDataManagement.SettleBounds` | source/xensiv_radar_data_management.c:363-372 | the closing bounds check keeps the invariant |
| `RadarDataManagement.Run` | source/xensiv_radar_data_management.c:226-374 | a run yields a state satisfying the invariant with head 0 |
| `RadarDataManagement.ReadBuffer` | source/xensiv_radar_data_management.c:383-408 | -1 exactly for an id outside 1..4; a window exactly when the watermark is reached and the slot is taken, otherwise -2; the window is offset head, size fill_level, and in a valid state lies within the buffered bytes of an allocated buffer |
| `RadarDataManagement.WindowBytes` | source/xensiv_radar_data_management.c:397-399 | the bytes behind the pointer and size a read hands out, fill_level of them |
| `RadarDataManagement.AckDataRead` | source/xensiv_radar_data_management.c:414-423 | ignores ids outside 1..4, otherwise sets that slot's acknowledgement (free or not) and nothing else; invariant kept |
| `RadarDataManagement.AsUnsigned` | source/xensiv_radar_data_management.c:433-434 | the int32 level compared with the uint32 buffer size is read modulo 2^32 |
| `RadarDataManagement.AsSigned` | source/xensiv_radar_data_management.c:448-451 | the uint32 level returned as int32 agrees with it modulo 2^32 |
| `RadarDataManagement.SetFillLevel` | source/xensiv_radar_data_management.c:431-443 | returns 0 or -1, accepting exactly the levels whose unsigned reading lies in 1..buff_size; on success only fill_level changes, otherwise nothing |
| `RadarDataManagement.GetFillLevel` | source/xensiv_radar_data_management.c:448-451 | the returned int32 equals the stored level modulo 2^32, and is the level itself below 2^31 |
| `RadarDataManagement.SetMallocFree` | source/xensiv_radar_data_management.c:456-464 | both hooks are stored as given and nothing else changes |
| `RadarDataManagement.Init` | source/xensiv_radar_data_management.c:471-532 | -2 first when a buffer exists, changing nothing; -1 exactly for a NULL interface, zero size, zero level or level above size, changing nothing; the hooks fall back to the standard pair if either is unset, even when allocation then fails; -2 on allocation failure, changing only the hooks; success gives a zeroed buffer of the size, the level and zero counters |
| `RadarDataManagement.Deinit` | source/xensiv_radar_data_management.c:538-551 | -2 exactly while the count is positive or no buffer exists, changing nothing; otherwise the whole state is zeroed, hooks and table included |
| `DataManager.RadarDataManager.constructor` | source/xensiv_radar_data_management.c:106 | the static struct starts zeroed: no buffer, zero counters, free table, unset hooks |
| `DataManager.RadarDataManager.Subscribe` | source/xensiv_radar_data_management.c:122-195 | the two table scans update the fields exactly as `Subscribe` specifies and return its result |
| `DataManager.RadarDataManager.Unsubscribe` | source/xensiv_radar_data_management.c:202-218 | the fields afterwards are `Unsubscribe` of the fields before |
| `DataManager.RadarDataManager.Run` | source/xensiv_radar_data_management.c:226-374 | the new fields and the notified slots are exactly `Run` of the old fields; the buffer array stays the same |
| `DataManager.RadarDataManager.IngestReport` | source/xensiv_radar_data_management.c:234-257 | the producer copy into the array and the counter update equal `Ingest` |
| `DataManager.RadarDataManager.NotifySubscribers` | source/xensiv_radar_data_management.c:265-285 | the wake loop notifies exactly the occupied slots in ascending order |
| `DataManager.RadarDataManager.AllRead` | source/xensiv_radar_data_management.c:288-296 | the scan's flag is true exactly when every occupied slot has acknowledged |
| `DataManager.RadarDataManager.AdjustQueue` | source/xensiv_radar_data_management.c:298-327 | the in-place adjustment equals `Compact` |
| `DataManager.RadarDataManager.MoveToFront` | source/xensiv_radar_data_management.c:307-310 | the memcpy leaves bytes [from, tail) at the front and the rest of the array as it was |
| `DataManager.RadarDataManager.ClearAcknowledgements` | source/xensiv_radar_data_management.c:318-325 | the array afterwards is `ClearAcks` of the array before |
| `DataManager.RadarDataManager.ReadBuffer` | source/xensiv_radar_data_management.c:383-408 | returns `ReadBuffer` of the fields and changes nothing; a window is offset head, size fill_level, so the bytes exposed are `Unread(Model())[..fill_level]`; that these are the oldest unread bytes is `RdmProperties.ReadSeesOldestUnreadBytes` and `RdmProperties.ReadAfterRunSeesOldestBytes` |
| `DataManager.RadarDataManager.AckDataRead` | source/xensiv_radar_data_management.c:414-423 | the table afterwards is `AckDataRead` of the table before |
| `DataManager.RadarDataManager.SetFillLevel` | source/xensiv_radar_data_management.c:431-443 | fields and result are `SetFillLevel` of the fields before |
| `DataManager.RadarDataManager.GetFillLevel` | source/xensiv_radar_data_management.c:448-451 | returns the stored level read as int32, which is the level itself below 2^31 |
| `DataManager.RadarDataManager.SetMallocFree` | source/xensiv_radar_data_management.c:456-464 | the fields afterwards are `SetMallocFree` of the fields before |
| `DataManager.RadarDataManager.Init` | source/xensiv_radar_data_management.c:471-532 | fields and result are `Init` of the fields before; on success the buffer is a fresh array, otherwise the old one |
| `DataManager.RadarDataManager.AllocateZeroed` | source/xensiv_radar_data_management.c:492-500 | the allocation followed by its memset gives a fresh all-zero array of the size |
| `DataManager.RadarDataManager.Deinit` | source/xensiv_radar_data_management.c:538-551 | fields and result are `Deinit` of the fields before |
| `RdmProperties.OccupiedFromIsExact` | source/xensiv_radar_data_management.c:265-268 | a slot is notified exactly when it lies in the scanned range and holds a handle |
| `RdmProperties.OccupiedFromAscends` | source/xensiv_radar_data_management.c:265 | the notification order is strictly ascending, so no slot is notified twice |
| `RdmProperties.RunWakesEachOccupiedSlotOnce` | source/xensiv_radar_data_management.c:260-285 | a run notifies each occupied slot exactly once, in ascending order, when the watermark is reached after ingesting, and no slot otherwise |
| `RdmProperties.RunCompactsIffAllAcknowledged` | source/xensiv_radar_data_management.c:288-327 | a run's tail ends below the ingested tail exactly when the watermark is reached and every occupied slot acknowledged; handles and count unchanged |
| `RdmProperties.CompactionKeepsUnreadBytes` | source/xensiv_radar_data_management.c:302-325 | a compacting run moves bytes [fill_level, tail) to the front, sets head 0, keeps samples equal to the bytes left and clears every ack |
| `RdmProperties.UnacknowledgedDataPersists` | source/xensiv_radar_data_management.h:115-117 | until all acknowledge, the buffered prefix survives a run, tail never shrinks and the table is unchanged |
| `RdmProperties.ClosingResetOnlyWithoutBuffer` | source/xensiv_radar_data_management.c:363-372 | the closing reset is taken exactly when no buffer is allocated, and then changes nothing |
| `RdmProperties.HeadStaysZero` | source/xensiv_radar_data_management.c:302-314 | head is 0 initially and after run, subscribe, unsubscribe, ack and set_fill_level, with samples equal to tail |
| `RdmProperties.IngestAppendsToUnread` | source/xensiv_radar_data_management.c:234-247 | ingesting appends the bytes between the old and the new tail to the unread bytes; on an accepted read they are the first count bytes the producer copied, otherwise nothing is appended |
| `RdmProperties.RunReleasesOldestWindow` | source/xensiv_radar_data_management.c:298-316 | a compacting run drops exactly the oldest fill_level unread bytes and keeps the rest in order; any other run keeps all of them |
| `RdmProperties.ReadSeesOldestUnreadBytes` | source/xensiv_radar_data_management.c:383-408 | in every valid state a successful read exposes the first fill_level unread bytes |
| `RdmProperties.ReadAfterRunSeesOldestBytes` | source/xensiv_radar_data_management.c:226-408 | after a run that accepted the producer's report, a read returns the first fill_level bytes of the old unread bytes followed by the new ones, less the window released if the run compacted |
| `RdmProperties.ResubscribeReturnsSameId` | source/xensiv_radar_data_management.c:141-154 | subscribing the same handle again returns the same id and changes nothing |
| `RdmProperties.IdsSurviveRunAndAck` | source/xensiv_radar_data_management.c:226-423 | neither run nor ack moves or drops a handle, so a subscription id stays valid |
| `RdmProperties.FillLevelRoundTrip` | source/xensiv_radar_data_management.c:431-451 | an accepted level is what get_fill_level returns |
| `RdmProperties.SetFillLevelAcceptsExactlyOneToSize` | source/xensiv_radar_data_management.c:433-438 | for sizes below 2^31 the accepted levels are exactly 1..buff_size; negative levels are refused |
| `RdmProperties.UnsubscribingFreeSlotLosesCount` | source/xensiv_radar_data_management.c:204-217 | unsubscribing a free slot zeroes the count while slot 1 is held, after which deinit succeeds |
| `RdmProperties.FullTableRefusesNewHandle` | source/xensiv_radar_data_management.c:156-194 | with all four slots held a new handle gets -2 and nothing changes, while a held handle still gets its id |
| `RdmProperties.OneSubscriberCycle` | source/xensiv_radar_data_management.c:122-423 | init, subscribe, a 4-byte run that notifies slot 1 whose read sees [1,2,3,4], ack, and a run with nothing new that notifies slot 1 again, compacts to head = tail = 0 and then refuses slot 1's read with -2 |
| `RdmProperties.SlowSubscriberBlocksCompaction` | source/xensiv_radar_data_management.c:288-298 | with two subscribers and one acknowledgement, a second run notifies both again and keeps all 8 bytes in place |
| `RdmFindings.Wrap` | source/xensiv_radar_data_management.c:307 | uint32 subtraction below zero adds 2^32 |
| `RdmFindings.RunCountersAsWritten` | source/xensiv_radar_data_management.c:226-374 | the counters of run as written keep size and level; after a refused read with samples at least fill_level, tail below it and everyone acknowledged, tail wraps to tail - fill_level + 2^32 |
| `RdmFindings.IngestCounters` | source/xensiv_radar_data_management.c:234-257 | a read that is not accepted (full buffer, negative status, or a count above the room) changes no counter; an accepted one advances tail by the count within the buffer and sets samples to tail - head |
| `RdmFindings.AdjustCountersAsWritten` | source/xensiv_radar_data_management.c:298-317 | the written adjustment never changes samples; it does nothing unless samples reaches fill_level and all have read, and then sets head 0 and tail to tail - fill_level, wrapped when negative |
| `RdmFindings.SettleCounters` | source/xensiv_radar_data_management.c:363-372 | the closing check changes the counters only for a full buffer with head == tail, and then zeroes head, tail and samples |
| `RdmFindings.StaleSamplesWrapTail` | source/xensiv_radar_data_management.c:302-316 | as written, buffer 12, fill 4, no subscriber: a 4-byte run leaves samples 4 at tail 0, and a next read refused for a count of 100 above the room sets tail to 2^32-4 |
| `RdmFindings.CorrectedRunStaysInBounds` | source/xensiv_radar_data_management.c:302-316 | the corrected run on the same two reports keeps tail and samples at 0 |
| `RdmFindings.StaleWindowAfterAcceptedCompaction` | source/xensiv_radar_data_management.c:234-408 | as written, with one subscriber that has acknowledged 4 bytes: an accepted read of count 0 compacts to tail 0 with samples still 4, and the subscriber's read gets the window [0, 4) beyond tail |
| `RdmFindings.StaleSamplesRewakeSubscribers` | source/xensiv_radar_data_management.c:260-408 | as written, with one subscriber: after a compaction leaves samples 4 at tail 0, a run whose read is refused wakes slot 1 again and its read gets the window [0, 4) beyond tail |
| `RdmFindings.CorrectedRunDoesNotRewake` | source/xensiv_radar_data_management.c:260-408 | the corrected runs on the same reports leave samples 0 after the compaction, wake nobody next and refuse the read with -2 |
| `RdmFindings.AsWrittenDiffersOnlyInSamples` | source/xensiv_radar_data_management.c:226-374 | from a valid state the written run and the corrected one agree on head, tail, size and level; samples differs only after a compaction, where the written code keeps the old count |
| `RdmFindings.AdjustAsWritten` | source/xensiv_radar_data_management.c:298-317 | the written adjustment moves head and tail as `Compact` does and leaves samples unchanged |
| `RdmFindings.IngestAsWritten` | source/xensiv_radar_data_management.c:240-247 | `IngestCounters` of the counters equals the counters of `Ingest` |
| `RadarConfigOptimizer.OptimizationCode` | source/radar_config_optimizer.h:39-44 | the two real configurations have codes below 2, which index the two-entry table; uninitialised does not |
| `RadarConfigOptimizer.OptimizationOfCode` | source/radar_config_optimizer.h:39-44 | a decoded code encodes back to itself |
| `RadarConfigOptimizer.StatusCode` | source/radar_config_optimizer.h:55-62 | the status codes are 0..4 |
| `RadarConfigOptimizer.SeedOptimization` | source/radar_config_optimizer.c:101-112 | the seeded configuration is never uninitialised: LOW for macro-only and micro-if-macro, HIGH for micro-only and micro-and-macro |
| `RadarConfigOptimizer.RequestedOptimization` | source/radar_config_optimizer.c:161-195 | an unsupported mode asks for uninitialised, a reachable mode never does; the fixed modes ask for their seed configuration; in micro-if-macro mode macro presence asks for the other configuration (and keeps uninitialised as it is), absence asks for LOW and micro presence for the current one |
| `RadarConfigOptimizer.Optimizer.constructor` | source/radar_config_optimizer.c:38-43 | starts macro-only, uninitialised, with no callback |
| `RadarConfigOptimizer.Optimizer.Init` | source/radar_config_optimizer.c:60-75 | a NULL callback returns PARAM_UNINITIALIZED and stores nothing; otherwise it is stored and SUCCESS returned |
| `RadarConfigOptimizer.Optimizer.SetOperationalMode` | source/radar_config_optimizer.c:90-122 | an unsupported mode returns PARM_NOT_SUPPORTED and changes nothing; a supported one is stored, seeding the configuration only while uninitialised, and SUCCESS returned |
| `RadarConfigOptimizer.Optimizer.Optimize` | source/radar_config_optimizer.c:141-215 | without a callback FAILURE and no change; otherwise SUCCESS, the configuration becomes the requested one, and the callback is called once with it exactly when it differs from the old one |
| `RadarConfigOptimizer.Optimizer.GetCurrentOptimization` | source/radar_config_optimizer.c:226-229 | returns the current configuration |
| `RadarConfigOptimizer.FixedModesIgnorePresence` | source/radar_config_optimizer.c:187-195 | micro-only and micro-and-macro always ask for HIGH, macro-only for LOW, whatever the state and current value |
| `RadarConfigOptimizer.MacroPresenceToggles` | source/radar_config_optimizer.c:165-174 | in micro-if-macro mode macro presence flips LOW and HIGH, and flipping twice restores the value |
| `RadarConfigOptimizer.RequestIsIdempotent` | source/radar_config_optimizer.c:161-200 | except for macro presence in micro-if-macro mode, asking again from the value just chosen asks for the same, so the callback is not called again |
| `RadarConfigOptimizer.RequestIsNeverUninitialized` | source/radar_config_optimizer.c:161-195 | from every reachable state the request is LOW or HIGH |
| `RadarConfigOptimizer.StepsKeepConsistency` | source/radar_config_optimizer.c:95-112 | optimize and set_operational_mode keep the mode supported and uninitialised only under macro-only |
| `RadarConfigOptimizer.OptimizationCodesRoundTrip` | source/radar_config_optimizer.h:39-44 | the optimization codes are distinct and decode back |
| `RadarConfigOptimizer.StatusCodesDistinct` | source/radar_config_optimizer.h:55-62 | the five status codes are pairwise distinct |
| `CliTask.CheckBoolValidation` | source/cli_task.c:618-629 | a value is accepted exactly when it is the word of true or of false |
| `CliTask.StringToBool` | source/cli_task.c:672-684 | an accepted value converts to the flag whose word it is; anything but the enable word gives false |
| `CliTask.CheckModeValidation` | source/cli_task.c:698-711 | an accepted string is the name of the mode it converts to; a refused one is the name of no mode |
| `CliTask.StringToMode` | source/cli_task.c:725-740 | every string converts to a mode the optimizer accepts |
| `CliTask.ModeNamesRoundTrip` | source/cli_task.c:698-740 | each of the four names is accepted and converts to its mode |
| `CliTask.ModeValidationIsExactlyTheNames` | source/cli_task.c:698-740 | a string is accepted exactly when it is a mode's name, that of the mode it converts to; any other converts to macro-only |
| `CliTask.ModeNamesAreDistinct` | source/cli_task.c:725-740 | different accepted names convert to different modes |
| `CliTask.BoolNamesRoundTrip` | source/cli_task.c:618-684 | with distinct words, a value is accepted exactly as one of them, converts to true exactly for the enable word, and a flag's word converts back to it |
| `CliTask.EmptyInput` | source/cli_task.c:186 | the cleared buffer is 50 NULs |
| `CliTask.Step` | source/cli_task.c:178-253 | one key keeps the buffer at 50 bytes and the index within 0..50 |
| `CliTask.StepAll` | source/cli_task.c:178-253 | the loop over keys keeps the same bounds and yields one effect per key |
| `CliTask.StepKeepsLayout` | source/cli_task.c:232-249 | every key keeps the buffer as typed text, then blanks left by backspace, then NULs |
| `CliTask.PresenceModeOnlyReactsToEnter` | source/cli_task.c:182-191 | outside setting mode only ENTER has an effect: it enters setting mode, empties the buffer, resets the index and detaches the presence callback |
| `CliTask.SettingModeKeys` | source/cli_task.c:194-251 | in setting mode ESC leaves it and reattaches the callback, ENTER submits the buffer, both emptying it; other keys edit the text like a line editor |
| `CliTask.EditingKeysFollowLineEditor` | source/cli_task.c:232-249 | any run of editing keys leaves exactly the line editor's text, with no effect |
| `CliTask.SubmittedTextIsTypedLine` | source/cli_task.c:213-214 | below 50 characters the submitted string is the typed text plus backspace's blanks |
| `CliTask.FullLineHasNoTerminator` | source/cli_task.c:245-249 | after 50 typed characters the buffer has no NUL terminator |
| `CliTask.ErasedCharacterBecomesBlank` | source/cli_task.c:235-237 | typing "ab" and one backspace leaves text "a" and submits "a " |
| `CliTask.ConsoleTask.constructor` | source/cli_task.c:161-166 | index 0, presence mode, zeroed static buffer |
| `CliTask.ConsoleTask.ClearInput` | source/cli_task.c:185-186 | the index reset and memset leave 50 NULs and index 0 |
| `CliTask.ConsoleTask.HandleKey` | source/cli_task.c:180-253 | the fields and the effect of one pass are exactly `Step` of the old fields |
| `CliTask.ConsoleTask.ProcessKeys` | source/cli_task.c:178-253 | the loop over a finite key sequence gives exactly `StepAll` |

## Findings

| source | as written | input that shows it | evidently intended | confidence | as-written member | corrected member |
|---|---|---|---|---|---|---|
| source/xensiv_radar_data_management.c:302-316 | the queue adjustment moves `tail` but leaves `samples` at its old value, so afterwards `samples` can be at least `fill_level` while `tail` is below it; a later run whose read is not accepted takes the adjustment again and computes `tail - head` in uint32, which wraps to nearly 2^32 and becomes the `memcpy` length and the new `tail` | buffer 12, fill level 4, no subscriber: a run whose producer delivers 4 bytes leaves tail 0 and samples 4; a following run whose producer returns 0 with count 100, more than the room, is refused and sets tail to 4294967292 | `samples` tracks `tail - head` after the adjustment, as it does after ingesting | not executed | `RdmFindings.StaleSamplesWrapTail` | `RadarDataManagement.Compact` |
| source/xensiv_radar_data_management.c:298-408 | the same stale `samples` passes the watermark test of read_from_buffer after any compaction that leaves tail below fill_level, so a subscriber woken by that run is handed the window [0, fill_level) although tail is below it: bytes it has already acknowledged | buffer 12, fill level 4, one subscriber: a 4-byte run and its acknowledgement, then a run whose producer returns 0 with count 0 (accepted) wakes slot 1 and compacts to tail 0 with samples 4; slot 1's read returns offset 0, size 4 at tail 0 | after a compaction reads are refused until fill_level new bytes have arrived | not executed | `RdmFindings.StaleWindowAfterAcceptedCompaction` | `RdmProperties.OneSubscriberCycle` |
| source/xensiv_radar_data_management.c:260-408 | after such a compaction, a run whose read is refused leaves the stale `samples` in place and passes the watermark test of run again, so the registered subscribers are woken once more for no new data and again handed the window beyond tail | buffer 12, fill level 4, one subscriber: a 4-byte run, its acknowledgement, a run whose read is refused for a count of 100 (compacting to tail 0, samples 4), then another such run wakes slot 1 and its read returns offset 0, size 4 at tail 0 | after a compaction nobody is woken until fill_level new bytes have arrived | not executed | `RdmFindings.StaleSamplesRewakeSubscribers` | `RdmFindings.CorrectedRunDoesNotRewake` |

The as-written half is `RdmFindings.RunCountersAsWritten`: the counters of `run` with uint32 wrap-around written out. `AsWrittenDiffersOnlyInSamples` shows that, from a valid state, it agrees with the corrected run except for `samples` after a compaction.

The corrected `Compact` sets `samples` to the bytes left. Its invariant `samples == tail - head` is what `Run`, the class and all RDM lemmas rely on, and `CorrectedRunStaysInBounds` replays the input above against it.

The window beyond tail follows any compaction that leaves tail below fill_level, whatever the read. The tail wrap and the repeated wake need a read that is not accepted after such a compaction. With the example's own producer such a read can occur: `read_radar_data` always returns 0, and when the FIFO read fails it leaves the count unset (`source/main.c:135-147`), so the read is refused whenever that unset count exceeds the room. The traces above use status 0 with a count of 100 for that case; the counters model handles a negative status the same way.

## Left out

- RadarDataManagement.Compact: recomputes `samples` after moving `tail`, which the C adjustment does not do; the written behaviour is in `RdmFindings`.
- RadarDataManagement.Run: uses the corrected `Compact`, so it does not wake subscribers again or expose a window past tail after a compaction, as the C code can.
- DataManager.RadarDataManager.Run: proved against the corrected `Run`, so it recomputes `samples` after the adjustment where the C code does not.
- DataManager.RadarDataManager.AdjustQueue: proved against the corrected `Compact`, so it recomputes `samples` where the C code does not.
- The `#else` variant of the RDM without FreeRTOS (callbacks instead of task handles): the example builds with `FREERTOS_AWARE` defined.
- Task notification (`vTaskNotifyGive*`, `portYIELD_FROM_ISR`): modelled as the list of notified slots; `run_from_isr` only selects the primitive and is otherwise unused.
- Concurrency between `run` in interrupt context and subscriber tasks: every operation is modelled as atomic.
- The producer's `in_read_radar_data` and the hooks `malloc`/`free`: replaced by parameters (the producer's report, allocation success). Deallocation is dropping the array reference.
- The interface struct that `init` fills with function pointers (`xensiv_radar_data_management.c:513-529`) and `manager_interface`: only whether a non-NULL interface was given is modelled.
- `uint8_t subscribers` and `int8_t cInputIndex` are unbounded integers; the proved bounds (at most 4, and 0..50) keep them within their C types.
- The bytes exposed by `read_from_buffer` are reached through `WindowBytes`; the `uint16_t*` cast of the pointer is not modelled.
- `main.c`, the presence library (`xensiv_radar_presence_*`), FreeRTOS_CLI command dispatch and parameter extraction, `getchar`/`printf`/`putchar`, `vTaskSuspendAll`: outside this model; the console's ENTER produces the buffer it would hand to `FreeRTOS_CLIProcessCommand`.
- The float setters `set_max_range`, `set_macro_threshold`, `set_micro_threshold` and `check_float_validation`: floating point and `strtof`.
- The optimizer's debug printing gated by `print_job_locked`: output only.
- `resource_map.h`, `optimization_list.h`, `presence_settings.h` and `cli_task.h`: constants and prototypes with no logic.
- The C strings compared by `strcmp` in the console helpers are modelled as the character sequences before their terminator.
