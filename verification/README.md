# A verified model of the Modbus data collector

The collector polls Modbus TCP devices, decodes their registers into measures, stores the measures with little
redundancy and shows the live state to web clients. This project models its four stateful components and proves what
each of them keeps over every run. `dafny verify dfyconfig.toml` checks everything.

| part | files | main results |
|---|---|---|
| The deduplicating cache of a tag and the log it emits | `Samples`, `HasherSpec`, `Signal`, `SignalTiming`, `RingBuffer`, `ValueHasher`, `DbMeasureUnit`, `MeasureMaster` | the in-place ring refines an unbounded list; cached answers equal a filter of the whole past; cache, log and inputs describe the same signal; every good sample can be read back from the log; when the cache answers; the gap bound is attained for every sampling interval; batches conserve every row |
| The read planner | `RegisterGroups`, `Plugins`, `ReadPlanner`, `PlanMeaning`, `DevicePool` | the groups are a partition, and the fewest possible exactly when no two neighbouring registers both repeat; exactly which plugins are placed; from configuration to measure, one poll gives exactly what the device's memory holds for each value that is served |
| The live-data coordinator | `Events`, `LiveChanges`, `LiveUnit`, `LiveCoordinator` | after every step a live client's payloads fold to the coordinator's state within its filter, whenever it reads them; a subscriber is sent exactly what changes within its filter, and dropped exactly if that does not fit its channel |
| The polling scheduler and the read cycle | `Scheduler`, `ReadCycle`, `CycleMeaning`, `MasterSpec`, `MasterRuns`, `MasterService`, `MasterCreation`, `MasterReports`, `MasterBlame`, `ReadMaster` | which device is chosen, and exactly which ones are ever served; bounded retries; exactly which reports are sent over a run, what each accounts for, and that every measure in them is true or marked as failed; every message the controller is told; exactly which device each mismatch is blamed on; an overdue device that is not blocked is served within as many completed polls as there are devices, whatever else fails |

`Sequences` holds shared vocabulary. Each imperative component is a class or a method with loops that is proved against
a function of its inputs or its old state (`HasherSpec.Add`, `Groups`, `Plan`, `RunCycle`, `MasterSpec.Tick`, the maps of
`LiveChanges`); the theorems about whole runs are lemmas about those functions.

## What the code does not do

Where the code falls short of what one would expect of it, the exact condition is proved:

- `MasterCreation.ConfiguredIsReadExactly`, `MasterService.ReadFromFreshExactly`, `MasterService.NobodyIsRead`: an inactive
  first device is the baseline of the choice, is due at its creation, and never moves. As devices are created one after another, no other one is due before it, and an
  active device is read in some run from a fresh start if and only if the first device is active; otherwise nobody is ever
  read, from the first tick on, and a connected loop turns every 20 ms for ever (`MasterService.IdleForEver`).
  `Scheduler.NeverPolledExample` gives an input.
- `Scheduler.ServedExactly`, `MasterService.ReadExactly`: from any other order of deadlines, such as a clock that was set back
  between two creations leaves, an active device can be polled if and only if the first device is active or the device is due
  before it; even then service ends for everybody (`Scheduler.ServiceEnds`, `MasterService.FewPolls`,
  `MasterService.ServiceEndsInLoop`).
- `RegisterGroups.RegSortOptimal`: if two neighbouring registers are both listed more than once, the groups are not the
  fewest possible.
- `PlanMeaning.GroupModeServes`, `PlanMeaning.SingleModeServes`: exactly the two-register plugins whose registers are separated
  by a gap or a repetition are served by no request in group mode, and exactly those with two different registers in single mode.
- `ValueHasherUnit.ValueHasher.LiveAnswersExactly`: an answer from the cache is complete exactly when the newest evicted entry
  does not carry the start time of the query; `ValueHasherUnit.EvictedTwin` builds a ring where it does.
- `Plugins.SignedPairExactly`: a signed pair of registers is read as the number it holds in two's complement if and only if its
  high word is 0.
- `Signal.StartsKeptExactly`: the cache keeps where the runs of equal values started exactly when every second sample of a
  run of good values comes more than 300 seconds after the first; the log always does. `Signal.StartsMove` gives an input.
- `DbMeasureUnit.DbMeasureUnit.Valid`: no row is lost or made up, and some row is stored more often than it was given exactly
  after a commit that took effect without an answer; `DbMeasureUnit.UnheardTwice` builds such a buffer.
- `MasterRuns.WaitsToReconnect`: the minute of waiting that the log message announces is kept, except after an address that
  cannot be parsed: then the node stays "connecting" and no new wait begins. A fresh node turns every 20 ms for ever
  (`MasterRuns.BadAddressForEver`).
- `SignalTiming.GapBoundAttained`: for every sampling interval the log can be silent for 420 seconds and two intervals, not
  only for the 300 seconds of the stable delta.
- `MasterRuns.IdleDelay`: with an inactive device chosen the loop does not sleep for the second the comment announces, because
  1000 is taken as a point in time (`src/reader/reader_loop/reading_loop/read_master_struct.rs:314-318`).
- `MasterRuns.WaitsForDevices`: without devices it waits a minute, not the second of the comment
  (`src/reader/reader_loop/reading_loop/read_master_struct.rs:94`).

## Premises

- The ring has at least two slots, and time stamps never go back; results that need them to be positive or strictly later
  say so (`Positive`, `Spaced(_, 1)`).
- Values have exact equality and a distinguished failure value, which stands for `f64::MIN`.
- A successful read of a start address and a length returns exactly that many words (sections 6.1 to 6.4 of the MODBUS
  Application Protocol Specification V1.1b3); addresses lie in 0 to 65535 and no request spans 65536 registers or more.
- Plugin settings are valid, the clock can be read, and the controller's channel accepts every message.

## Model

| member | source | states |
|---|---|---|
| ValueHasherUnit.ValueHasher.constructor | src/db/hasher/hash_unit.rs:28-44 | a new ring holds its first sample, which is also the first row of its log |
| ValueHasherUnit.ValueHasher.Advance | src/db/hasher/hash_unit.rs:59-66 | positions are counted until the ring closes for the first time |
| ValueHasherUnit.ValueHasher.GoAhead | src/db/hasher/hash_unit.rs:67-72 | the head moves on around the ring, and in a closed ring the tail is the slot after it |
| ValueHasherUnit.ValueHasher.RollBack | src/db/hasher/hash_unit.rs:73-81 | the head goes back one slot and the tail stays |
| ValueHasherUnit.ValueHasher.AddNormal | src/db/hasher/hash_unit.rs:82-106 | the ring after a good sample represents the history the specification gives, and returns the points it emits |
| ValueHasherUnit.ValueHasher.AddAfterNoise | src/db/hasher/hash_unit.rs:107-115 | the failure slot is given back, and the sample is treated as if there had been none |
| ValueHasherUnit.ValueHasher.CleanFailReport | src/db/hasher/hash_unit.rs:117-125 | the first good sample after a reported outage is appended and emitted |
| ValueHasherUnit.ValueHasher.AddFail | src/db/hasher/hash_unit.rs:127-147 | a failure enters a slot, is confirmed once it spans more than 120 seconds, and is then silent |
| ValueHasherUnit.ValueHasher.CloseSlot | src/db/hasher/hash_unit.rs:100-103 | the closing point is emitted, preceded by the one before it exactly if that was extended silently |
| ValueHasherUnit.ValueHasher.Add | src/db/hasher/hash_unit.rs:46-56 | every call keeps the ring a refinement of the unbounded history, and emits what the specification emits |
| ValueHasherUnit.ValueHasher.RingRefinesHistory | src/db/hasher/hash_unit.rs:46-147 | the slots from tail to head are the newest part of the history: all of it before the ring closes, and at least capacity - 1 entries afterwards |
| RingBuffer.Appended | src/db/hasher/hash_unit.rs:59-72 | taking a slot appends one entry to what the ring represents and overwrites at most the oldest one, with the tail one after the head |
| RingBuffer.GivenBack | src/db/hasher/hash_unit.rs:107-112 | rolling the head back drops exactly the newest entry, and the tail, now two after the head, still marks the oldest one |
| ValueHasherUnit.ValueHasher.LowerBoundRing | src/db/hasher/hash_unit.rs:196-217 | binary search over the wrapped array finds the number of live slots before the target |
| ValueHasherUnit.ValueHasher.GetHashed | src/db/hasher/hash_unit.rs:167-194 | there is an answer if and only if the history has two entries, the interval is not empty, starts at or after the oldest live one and contains a live one; it is exactly the live samples in the interval that have a time, and with strictly later, positive times the in-order filter of the complete history, evicted entries included |
| ValueHasherUnit.ValueHasher.Answers | src/db/hasher/hash_unit.rs:167-173 | of any history with two entries every interval is answered that contains an entry and starts at or after its first one, or, once the history has as many entries as there are slots, the oldest of the newest capacity - 1 |
| ValueHasherUnit.ValueHasher.LiveAnswersForHistory | src/db/hasher/hash_unit.rs:168-173 | a query that the tail guard accepts gets from the live slots what a scan of the whole past would give |
| ValueHasherUnit.ValueHasher.LiveAnswersExactly | src/db/hasher/hash_unit.rs:168-192 | with times that merely never go back, an accepted query gets the complete answer if and only if the newest evicted entry does not carry its start time |
| ValueHasherUnit.EvictedTwin | src/db/hasher/hash_unit.rs:167-194 | a reachable ring of two slots, after three samples at one time, that answers without the evicted one |
| RingBuffer.BlockIsRange | src/db/hasher/hash_unit.rs:178-192 | the slots between two lower bounds are the linear filter of the live window |
| RingBuffer.WindowAnswersForHistory | src/db/hasher/hash_unit.rs:167-173 | the window answers for the history if and only if the newest evicted entry does not carry the query's start time |
| Signal.PhaseAfterRun | src/db/hasher/hash_unit.rs:107-147 | the state of the failure machine reads off the inputs: normal after a good sample, otherwise whether the unbroken outage has already spanned more than 120 seconds |
| Signal.FailureReporting | src/db/hasher/hash_unit.rs:127-147 | a failure is emitted exactly for the sample with which an unbroken outage first spans more than 120 seconds |
| Signal.ReportedOnce | src/db/hasher/hash_unit.rs:127-130 | between two reports there is a good sample: an outage is reported at most once |
| Signal.SameFailures | src/db/hasher/hash_unit.rs:107-147 | apart from a slot awaiting confirmation, cache and log hold the same failures in the same order |
| Signal.NoiseErased | src/db/hasher/hash_unit.rs:107-115 | an outage that ends unconfirmed leaves no trace: memory and log are as if it had not happened |
| Signal.RunEffect | src/db/hasher/hash_unit.rs:82-162 | in every reachable state a sample is ignored, held silently, logged as a heartbeat or logged as a change that first closes the silent slot, and a silent slot is good |
| Signal.SignalPreserved | src/db/hasher/hash_unit.rs:82-162 | inputs and log have the same starts of runs of equal values; inputs and settled history have the same ends; every closed run of the log has the end it has in the inputs; without a silent duplicate the newest entry of the log is the newest one of the cache |
| Signal.StartsKeptExactly | src/db/hasher/hash_unit.rs:82-106 | for every run of strictly later inputs the cache keeps the starts of all runs of equal values if and only if in every run of good values the second sample comes more than 300 seconds after the first |
| Signal.StartsMove | src/db/hasher/hash_unit.rs:91-94 | an input: two equal values within 300 seconds, of which the second overwrites the start in the cache, while the log keeps it |
| SignalTiming.LogSpacing | src/db/hasher/hash_unit.rs:82-162 | history and log keep the spacing of the inputs, and a silent slot is later than the newest log entry |
| SignalTiming.LogStrictlyIncreases | src/db/hasher/hash_unit.rs:82-161 | the log of strictly later inputs never repeats or reverses a time stamp |
| SignalTiming.EntriesAreInputs | src/db/hasher/hash_unit.rs:46-147 | cache and log contain nothing but inputs |
| SignalTiming.NoGoodSampleLost | src/db/hasher/hash_unit.rs:82-162 | every good input coincides with a log entry of its value, lies between two neighbouring ones, or between the last one and the current slot |
| SignalTiming.LogReproducesSamples | src/db/hasher/hash_unit.rs:82-162 | read as a step function the log gives back the value of every good input |
| SignalTiming.LogGapBound | src/db/hasher/hash_unit.rs:4-5 | with inputs at most g apart, entries are at most 300 + 120 + 2g apart unless the earlier one reports a failure, and outside an outage the newest is at most 420 + g old |
| SignalTiming.GapBoundAttained | src/db/hasher/hash_unit.rs:82-147 | for every g of at least 1 there is a run of strictly later inputs whose log has a gap of exactly that bound |
| DbMeasureUnit.DbMeasureUnit.SaveValue | src/db/hasher/db_measure_unit.rs:59-71 | the row joins the buffer, and the buffer is flushed as one batch of at least 21 rows; nothing is lost whatever the commit does |
| DbMeasureUnit.DbMeasureUnit.Flush | src/db/hasher/db_measure_unit.rs:72-105 | a successful commit moves the buffer to the database, a refused one keeps it, one that takes effect unheard does both |
| DbMeasureUnit.UnheardTwice | src/db/hasher/db_measure_unit.rs:59-105 | a reachable buffer in which 21 rows are stored 42 times after one commit that took effect unheard |
| MeasureMaster.MeasureMaster.WriteMeasure | src/db/hasher/hash_master.rs:71-95 | every logged measure reaches the cache of its own tag, in order, and every tag's rows stay that tag's log |
| MeasureMaster.LoggedExactly | src/db/hasher/hash_master.rs:72-73 | each measure of a report is handed on in its own place if and only if it is to be logged |
| MeasureMaster.MeasureMaster.AddToExisting | src/db/hasher/hash_master.rs:75-83 | a further sample moves one cache and that tag's rows only, the older point first |
| MeasureMaster.MeasureMaster.AddFirst | src/db/hasher/hash_master.rs:84-92 | the first sample of a tag creates its cache and is saved |
| MeasureMaster.MeasureMaster.ReadMeasure | src/db/hasher/hash_master.rs:55-69 | one answer per tag in the order of the request: what the tag's cache answers if it answers at all, and the database's word only otherwise; an error exactly if the database fails a tag it is asked for |
| MeasureMaster.MeasureMaster.CachedAnswerIsComplete | src/db/hasher/hash_master.rs:59-63 | an answer from a cache is the complete history of that tag's own samples in the interval |
| MeasureMaster.MeasureMaster.RecentIsCached | src/db/hasher/hash_master.rs:59-63 | the database is not asked for an interval that contains an entry of the tag and starts at or after the oldest of its newest 131071 ones, once there are two |
| MeasureMaster.MeasureMaster.StoredIsExpected | src/db/hasher/hash_master.rs:71-95 | unless a commit went unheard, the rows of a tag in database and buffer are exactly the log of that tag's samples, under any pattern of failed flushes |
| MeasureMaster.MeasureMaster.StoredStrictlyIncreases | src/db/hasher/hash_master.rs:71-95 | the stored rows of a tag are strictly increasing in time |
| MeasureMaster.OneTagMoves | src/db/hasher/hash_master.rs:74-83 | the rows of one tag are not touched by the samples of another |
| RegisterGroups.RegSort | src/reader/reader_loop/modbus_device/pool_iterator.rs:182-198 | the loop that takes and refills a group computes the greedy groups of the sorted registers |
| RegisterGroups.RegSortPartitions | src/reader/reader_loop/modbus_device/pool_iterator.rs:182-198 | the groups are contiguous runs and together a permutation of the registers |
| RegisterGroups.GroupsConcat | src/reader/reader_loop/modbus_device/pool_iterator.rs:186-196 | the groups one after another are the sorted list |
| RegisterGroups.GroupsAreRuns | src/reader/reader_loop/modbus_device/pool_iterator.rs:187-192 | each group is start, start + 1, and so on |
| RegisterGroups.GreedyStarts | src/reader/reader_loop/modbus_device/pool_iterator.rs:186-193 | how many groups start at a register, from how often it and its predecessor are listed |
| RegisterGroups.StartsBalanceEnds | src/reader/reader_loop/modbus_device/pool_iterator.rs:182-198 | in any partition into runs, starts at x and ends at x - 1 differ by the difference of their counts |
| RegisterGroups.NoFewer | src/reader/reader_loop/modbus_device/pool_iterator.rs:182-198 | without two repeating neighbours, in particular for distinct registers, no partition into runs has fewer groups |
| RegisterGroups.RegSortOptimal | src/reader/reader_loop/modbus_device/pool_iterator.rs:182-198 | the groups are the fewest possible if and only if no two neighbouring registers both repeat |
| RegisterGroups.SameGroupExactly | src/reader/reader_loop/modbus_device/pool_iterator.rs:186-193 | two registers share a group if and only if every register strictly between them is listed exactly once |
| Plugins.FindYourRegisters | src/reader/reader_loop/decoding_plugins/plugin_loader.rs:39-45 | a plugin is found in a block exactly if it was not found before and the block has all its registers |
| Plugins.FindOne | src/reader/reader_loop/decoding_plugins/coma_shift.rs:56-66 | the first position of the register is learned, once |
| Plugins.FindTwo | src/reader/reader_loop/decoding_plugins/satec_double_register.rs:61-82 | the last positions of both registers are learned, and one found alone leaves its position behind |
| Plugins.FoundDecodesDirectly | src/reader/reader_loop/decoding_plugins/satec_double_register.rs:83-105 | a plugin found in a block never reaches outside of its words, and decodes them as it would its own registers |
| Plugins.UnsignedRoundTrip | src/reader/reader_loop/decoding_plugins/satec_double_register.rs:94-96 | high and low word of an unsigned 32-bit number decode to that number |
| Plugins.SignedRoundTrip | src/reader/reader_loop/decoding_plugins/coma_shift.rs:75-76 | the word of a signed 16-bit number decodes to that number |
| Plugins.SignedPairExactly | src/reader/reader_loop/decoding_plugins/satec_double_register.rs:91-96 | the signed reading of two words is their sum, the high one negative if its top bit is set, and is the number they hold in two's complement if and only if the high word is 0 |
| Plugins.BitsRoundTrip | src/reader/reader_loop/decoding_plugins/bit_in_word.rs:71-73 | each bit is read as the number 0 or 1, and the 16 of them make up the word |
| ReadPlanner.TakeMatching | src/reader/reader_loop/modbus_device/pool_iterator.rs:166-176 | the plugins that find themselves in the block move into the step, last one first, and the others stay in order |
| ReadPlanner.ShowBlock | src/reader/reader_loop/modbus_device/pool_iterator.rs:167-171 | every plugin is shown the block once, and the positions of those that found themselves are recorded |
| ReadPlanner.MoveOut | src/reader/reader_loop/modbus_device/pool_iterator.rs:172-176 | removal from the last position to the first takes out exactly the recorded plugins |
| ReadPlanner.GroupSort | src/reader/reader_loop/modbus_device/pool_iterator.rs:157-180 | one request per group of neighbouring registers, with its plugins |
| ReadPlanner.SingleSort | src/reader/reader_loop/modbus_device/pool_iterator.rs:119-145 | one request per listed register, with its plugins |
| PlanMeaning.PlacementConserves | src/reader/reader_loop/modbus_device/pool_iterator.rs:157-180 | placed plugins and those left over are a permutation of the input |
| PlanMeaning.ServesExactly | src/reader/reader_loop/modbus_device/pool_iterator.rs:164-178 | the plugins left over are exactly those that have their registers in no one block, in their old order, and all others are placed, each once |
| PlanMeaning.GroupModeServes | src/reader/reader_loop/modbus_device/pool_iterator.rs:157-198 | group mode places, each once, exactly the plugins for which every register strictly between the two of a pair is listed exactly once, and leaves exactly the others |
| PlanMeaning.NearIsPlaced | src/reader/reader_loop/modbus_device/pool_iterator.rs:157-198 | a plugin with one register or two neighbouring ones is placed as often as it is configured, however registers repeat and whatever pairs are left over |
| PlanMeaning.SingleModeServes | src/reader/reader_loop/modbus_device/pool_iterator.rs:126-143 | single mode places, each once, exactly the plugins that do not have two different registers, and leaves exactly the others |
| PlanMeaning.StepDecodes | src/reader/reader_loop/modbus_device/read_steps.rs:42-57 | the measures of one step are what its plugins would have read by themselves |
| PlanMeaning.GroupModeMeaning | src/reader/reader_loop/modbus_device/pool_iterator.rs:157-180 | for every device memory the grouped requests measure exactly what the placed plugins would have read from their own registers |
| PlanMeaning.SingleModeMeaning | src/reader/reader_loop/modbus_device/pool_iterator.rs:119-145 | the same for single requests |
| PlanMeaning.GroupModeComplete | src/reader/reader_loop/modbus_device/pool_iterator.rs:157-198 | for every list and every device memory a grouped poll measures exactly the plugins that group mode serves, each once and as it would read its own registers |
| PlanMeaning.SingleModeComplete | src/reader/reader_loop/modbus_device/pool_iterator.rs:119-145 | the same for a poll by single registers |
| PlanMeaning.ModesAgree | src/reader/reader_loop/modbus_device/pool_iterator.rs:101-107 | group mode measures all that single mode measures, and the same multiset where every plugin has one register |
| DevicePool.Distribute | src/reader/reader_loop/modbus_device/pool_iterator.rs:200-264 | plugins and registers are sorted by register type, and a value with an unknown decoding type is left out |
| DevicePool.UnitsPartition | src/reader/reader_loop/modbus_device/pool_iterator.rs:222-261 | every value with a known decoding type has its plugin in exactly one of the four lists |
| DevicePool.RegistersAsked | src/reader/reader_loop/modbus_device/pool_iterator.rs:233-261 | each list asks for the registers of its values, each as often as they name it |
| DevicePool.ServedPartition | src/reader/reader_loop/modbus_device/pool_iterator.rs:222-261 | the served values are served in exactly one of the four lists |
| DevicePool.PollValueIterator.Init | src/reader/reader_loop/modbus_device/pool_iterator.rs:88-117 | the four lists are the plans of their register types in the chosen mode |
| DevicePool.PollValueIterator.TotalSteps | src/reader/reader_loop/modbus_device/pool_iterator.rs:75-77 | the count is the number of requests the iterator yields |
| DevicePool.PoolValueRefIterator.Next | src/reader/reader_loop/modbus_device/pool_iterator.rs:20-44 | each call yields the next request in the order coils, discrete, holding, input, across empty lists, and nothing after the last |
| DevicePool.Collect | src/reader/reader_loop/modbus_device/pool_iterator.rs:20-77 | repeated calls yield every request once, in order, as many as counted |
| DevicePool.DevicePollComplete | src/reader/reader_loop/modbus_device/pool_iterator.rs:88-264 | one poll gives exactly one measure for every configured value that the mode serves, whatever the others are: what the device's memory holds at the value's own registers, under its own number, tag and logging flag |
| LiveChanges.NewsSuffices | src/api/web_sockets/web_sock_coord.rs:107-126 | leaving out what is not news loses nothing, also with repeated keys in one event |
| LiveChanges.IsNewsExactly | src/api/web_sockets/web_sock_coord.rs:107-126 | a change is news if and only if it changes the map |
| LiveChanges.NewsStep | src/api/web_sockets/web_sock_coord.rs:41-47 | of changes applied one after another, with repeated keys too, exactly those are news that change the map when their turn comes |
| LiveChanges.NewsExactly | src/api/web_sockets/web_sock_coord.rs:107-126 | of changes to different keys exactly those are news whose key was not known or had another value |
| LiveChanges.EventMeans | src/api/web_sockets/web_sock_coord.rs:27-49 | an event with different tags has news for a filter if and only if it changes what the filter lets through, and the news are exactly the changes within it |
| LiveChanges.FilteredCopy | src/api/web_sockets/live_socket_unit.rs:90-107 | a filtered copy kept up to date with the filtered changes is the filtered map |
| LiveChanges.KeepOnly | src/api/web_sockets/live_socket_unit.rs:90-107 | exactly the changes to keys of the filter are sent, never any other |
| LiveChanges.ClientStep | src/api/web_sockets/live_socket_unit.rs:109-135 | a client that is up to date stays so after a flush, and every payload corresponds to its own loop step |
| LiveUnit.LiveUnit.NodeEvents | src/api/web_sockets/live_socket_unit.rs:90-95 | a node change is pending exactly if the filter has the node |
| LiveUnit.LiveUnit.DeviceEvents | src/api/web_sockets/live_socket_unit.rs:96-101 | the same for devices |
| LiveUnit.LiveUnit.ValueEvents | src/api/web_sockets/live_socket_unit.rs:102-107 | the same for tags |
| LiveUnit.LiveUnit.Flush | src/api/web_sockets/live_socket_unit.rs:109-135 | what is pending goes into the channel as one payload, or the unit is dead because nobody listens or two payloads wait; nothing stays pending |
| LiveCoordinator.LiveCoordinator.OnNodeEvent | src/api/web_sockets/web_sock_coord.rs:27-34 | the state says what the event says; a subscriber for whom nothing changes is sent nothing and stays whatever its channel holds, any other is sent exactly the change, or is dropped exactly if its channel is closed or holds two payloads |
| LiveCoordinator.LiveCoordinator.OnDeviceEvent | src/api/web_sockets/web_sock_coord.rs:35-49 | the same for a status and measures of different tags, sent as one payload; where a tag repeats, the changes in order |
| LiveCoordinator.LiveCoordinator.MeasuresChanged | src/api/web_sockets/web_sock_coord.rs:41-47 | the measures are stored one after another, and exactly those that are news when their turn comes are pending |
| LiveCoordinator.LiveCoordinator.FlushSubscribers | src/api/web_sockets/web_sock_coord.rs:128-130 | exactly the subscribers that had news and no room are dropped, and all others have sent theirs |
| LiveCoordinator.LiveCoordinator.FirstWrite | src/api/web_sockets/web_sock_coord.rs:90-105 | a new subscriber is sent the whole state within its filter, in whatever order the maps give it |
| LiveCoordinator.LiveCoordinator.OnNew | src/api/web_sockets/web_sock_coord.rs:65-69 | a new subscriber is taken in unless its first payload is not accepted |
| LiveCoordinator.LiveCoordinator.OnChange | src/api/web_sockets/web_sock_coord.rs:70-75 | the old subscriber goes even if the new one is not taken in |
| LiveCoordinator.LiveCoordinator.OnDelete | src/api/web_sockets/web_sock_coord.rs:76-78 | one subscriber goes and the others stay up to date |
| LiveCoordinator.LiveCoordinator.Consume | src/api/web_sockets/live_socket_unit.rs:122-128 | a client may take a payload at any time without disturbing what the coordinator relies on |
| LiveCoordinator.LiveCoordinator.Leave | src/api/web_sockets/live_socket_unit.rs:122-128 | a client may go away at any time; its unit can then send nothing more, and the others are not disturbed |
| LiveCoordinator.LiveCoordinator.ClientView | src/api/web_sockets/web_sock_coord.rs:20-88 | what a live client has received is the filtered state of some step in the past, and with the at most two payloads in its channel the current one: no update is missed |
| Scheduler.ChoosesOldest | src/reader/reader_loop/reading_loop/read_master_struct.rs:304-319 | the choice is the first active device with the oldest deadline if and only if the first device is active or some active one is due before it |
| Scheduler.StarvesExactly | src/reader/reader_loop/reading_loop/read_master_struct.rs:304-319 | no device is polled in any run from now on if and only if the first device is inactive and no active one is due before it |
| Scheduler.ServedExactly | src/reader/reader_loop/reading_loop/read_master_struct.rs:304-319 | some run polls an active device if and only if the first device is active or the device is due before it |
| Scheduler.OldestUntilPolled | src/reader/reader_loop/reading_loop/read_master_struct.rs:304-319 | until such a device is polled, every choice is the first active device with the oldest deadline |
| Scheduler.BlockedForEver | src/reader/reader_loop/reading_loop/read_master_struct.rs:304-319 | a device that the first one blocks is never chosen and never changes, in any run |
| Scheduler.ServiceEnds | src/reader/reader_loop/reading_loop/read_master_struct.rs:304-319 | behind an inactive first device, once polls set deadlines that are not before its own, nobody is polled any more after fewer rounds than there are devices |
| Scheduler.FirstDecides | src/reader/reader_loop/modbus_device/modbus_device_unit.rs:22-41 | for devices in the order of their creation, somebody is polled in some run if and only if the first device is active |
| Scheduler.NeverPolledExample | src/reader/reader_loop/modbus_device/modbus_device_unit.rs:22-41 | an input: two active devices that are never polled, behind an inactive one created no later |
| Scheduler.DeadlinesMove | src/reader/reader_loop/modbus_device/modbus_device_unit.rs:76-84 | an active device that was polled has a later deadline, and any other device is as it was |
| Scheduler.DeadlinesExactly | src/reader/reader_loop/modbus_device/modbus_device_unit.rs:76-81 | the deadline of an active device lies exactly its recall time after its last poll |
| Scheduler.Fair | src/reader/reader_loop/reading_loop/read_master_struct.rs:304-319 | until an active device that the first one does not block is polled, and while polls set deadlines after its own, every other one is polled at most once, so there are fewer rounds than devices |
| ReadCycle.TriesBounded | src/reader/reader_loop/reading_loop/read_master_struct.rs:154-234 | a request is sent at least once and at most max(1, retry count) times, and its fate is that of the first answer that is not retried |
| ReadCycle.StepEndMeans | src/reader/reader_loop/reading_loop/read_master_struct.rs:527-621 | which answers break a step, lose the connection, count as a mismatch and are retried, and that a mismatch is late exactly after the first try |
| ReadCycle.RetryLimitExactly | src/reader/reader_loop/reading_loop/read_master_struct.rs:147 | a retry count that is not negative is the limit itself, and a negative one is as good as none |
| ReadCycle.StatusMeaning | src/reader/reader_loop/reading_loop/read_master_struct.rs:259-263 | a completed cycle is Full if and only if every step was answered, and Failed if and only if there are steps and none was |
| ReadCycle.CycleEnds | src/reader/reader_loop/reading_loop/read_master_struct.rs:149-251 | a cycle completes if and only if no request of an unbroken step ends, after its tries, in a lost connection or a header mismatch; otherwise the first such request decides, and a mismatch is late exactly if it was not the answer to the first try |
| ReadCycle.MeasuresAccounted | src/reader/reader_loop/reading_loop/read_master_struct.rs:149-236 | a completed cycle gives exactly one measure per plugin of every step that was not broken, in order and at the step's own time, decoded if and only if the step was answered and marked as failed otherwise; broken steps give none |
| ReadCycle.OnlyBreaks | src/reader/reader_loop/modbus_device/read_steps.rs:75-81 | a cycle, cut short or not, leaves every step as it was but for those it reaches and that are refused, which become broken; it repairs none |
| ReadCycle.NeverFullAgain | src/reader/reader_loop/reading_loop/read_master_struct.rs:149-153 | after a refusal no later cycle, under any conditions, is reported as Full |
| ReadCycle.DeviceAccounted | src/reader/reader_loop/reading_loop/read_master_struct.rs:149-289 | from configuration on and after any cycles, a completed one accounts in this way for exactly the plugins of the steps not refused so far |
| CycleMeaning.MeasuresExactly | src/reader/reader_loop/reading_loop/read_master_struct.rs:149-236 | whatever fails on the way, a completed cycle measures for every plugin of every unbroken step what the device's memory holds if the step is answered, and a failure otherwise |
| CycleMeaning.DeviceMeasuresTrue | src/reader/reader_loop/reading_loop/read_master_struct.rs:149-289 | over the whole life of a device every measure of a completed cycle is that of a configured value which its mode serves, under its own number, tag and logging flag, and says what the memory holds for it or that it could not be read |
| ReadCycle.CycleDecodes | src/reader/reader_loop/reading_loop/read_master_struct.rs:187-234 | faults that end before the tries are used up change nothing in what is measured |
| ReadCycle.DeviceCycleComplete | src/reader/reader_loop/reading_loop/read_master_struct.rs:149-289 | whatever faults retries overcome, a freshly planned device is reported Full, with exactly one measure for every configured value that its mode serves: what its memory holds for the value |
| MasterSpec.TickSound | src/reader/reader_loop/reading_loop/read_master_struct.rs:103-113 | every tick keeps the indices inside the device list and the connection in step with the last node event |
| MasterSpec.LoadedExactly | src/reader/reader_loop/reading_loop/read_master_struct.rs:350-366 | each found device takes its own place in the list if its values could be read, and is left out otherwise |
| MasterRuns.Loop | src/reader/reader_loop/reading_loop/read_master.rs:22-53 | every state that ticks and choices can reach is sound |
| MasterRuns.ProperStory | src/reader/reader_loop/reading_loop/read_master_struct.rs:496-524 | over every run the context is present exactly if the last node event is Connected, connections are announced before they are made, and devices are reported only while connected |
| MasterRuns.TickTimeouts | src/reader/reader_loop/reading_loop/read_master_struct.rs:238-302 | a tick, the first one included, raises the timeout of the device to blame for a header mismatch by 50, and changes no other setting of any device |
| MasterRuns.TimeoutsGrow | src/reader/reader_loop/reading_loop/read_master_struct.rs:291-302 | over every run, from a fresh start too, the sum of timeouts is the sum at the creation of the devices plus exactly 50 per header mismatch that had a device to blame |
| MasterBlame.LatestIsPrevious | src/reader/reader_loop/reading_loop/read_master_struct.rs:238-239 | in any run from a fresh start the device remembered for blame is the one read in the last turn that did not lose its connection |
| MasterBlame.BlamedExactly | src/reader/reader_loop/reading_loop/read_master_struct.rs:209-251 | a mismatch that is not the answer to a first try raises the timeout of the device that is read, one that is raises that of the device read before, if there was one, and no other timeout moves |
| MasterBlame.TimeoutsExactly | src/reader/reader_loop/reading_loop/read_master_struct.rs:291-302 | over any run from a fresh start the timeout of each device is that of its creation plus exactly 50 for every such turn |
| MasterRuns.DevicesStay | src/reader/reader_loop/reading_loop/read_master_struct.rs:103-113 | devices are built once and keep their number and settings |
| MasterRuns.WaitsToReconnect | src/reader/reader_loop/reading_loop/read_master_struct.rs:91-101 | after any tick with devices, the first one included, that ends without a connection, the loop waits until a minute after the moment it was given up in the attempt, the cycle or the recovery, except after a bad address, which leaves the waiting time as it was |
| MasterRuns.BadAddressForEver | src/reader/reader_loop/reading_loop/read_master_struct.rs:321-330 | a fresh node with devices and an address that cannot be parsed announces one attempt per tick and sleeps 20 ms after each, for ever |
| MasterRuns.WaitsForDevices | src/reader/reader_loop/reading_loop/read_master_struct.rs:91-95 | as long as the database finds no devices nothing changes and every sleep is a full minute |
| MasterRuns.IdleDelay | src/reader/reader_loop/reading_loop/read_master_struct.rs:314-318 | with an inactive device chosen the delay is one second if and only if the clock is at 0, and nothing if and only if it is at 1000 or later |
| MasterRuns.SleepsUntilDue | src/reader/reader_loop/reading_loop/read_master_struct.rs:91-101 | with a connection and an active device chosen the loop sleeps until that device is due, and 20 ms at least |
| MasterService.CurrentIsChosen | src/reader/reader_loop/reading_loop/read_master.rs:22-53 | in every reachable state, connected or not, the current device is the one the scheduler chooses |
| MasterService.PollsExactly | src/reader/reader_loop/reading_loop/read_master_struct.rs:103-139 | a tick reads a device if and only if there is a connection or the attempt to make one succeeds, and the chosen device is active: that one |
| MasterService.TickDeadlines | src/reader/reader_loop/reading_loop/read_master_struct.rs:238-289 | a tick moves the deadline of a device only by completing its cycle, and then to its recall time after the end of it |
| MasterService.HealthyTurn | src/reader/reader_loop/reading_loop/read_master.rs:48-52 | where a connection exists or is made and no cycle is cut short, tick and choice are one round of the scheduler, and the chosen device is read and reported |
| MasterService.AnyTurn | src/reader/reader_loop/reading_loop/read_master.rs:22-53 | any turn is either one round of the scheduler, in which the chosen active device is read and reported, or its cycle does not complete and no deadline moves |
| MasterService.LoopIsRounds | src/reader/reader_loop/reading_loop/read_master.rs:22-53 | over any run, whichever cycles are cut short and however often the connection fails, the deadlines are those of the scheduler after the completed polls alone |
| MasterService.OverdueIsServed | src/reader/reader_loop/reading_loop/read_master_struct.rs:103-319 | an overdue active device that the first one does not block is read and reported within as many completed polls as there are devices, whatever happens in all other turns |
| MasterService.BlockedIsNeverRead | src/reader/reader_loop/reading_loop/read_master_struct.rs:103-319 | a blocked device is never read in any run, whatever network, database and other devices do |
| MasterService.ReadExactly | src/reader/reader_loop/reading_loop/read_master_struct.rs:103-319 | some run of the loop reads an active device if and only if the first device is active or the device is due before it |
| MasterService.NobodyIsRead | src/reader/reader_loop/reading_loop/read_master_struct.rs:350-366 | from a fresh start, with devices in the order of their creation, nobody is ever read while the first device is inactive, from the first tick on |
| MasterService.ReadFromFreshExactly | src/reader/reader_loop/reading_loop/read_master_struct.rs:350-366 | from a fresh start and such a configuration, an active device is read in some run if and only if the first device is active |
| MasterCreation.ConfiguredIsReadExactly | src/reader/reader_loop/reading_loop/read_master_struct.rs:350-377 | told by the configuration: a device configured as active whose values can be read is read in some run from a fresh start if and only if the first device whose values can be read is configured as active |
| MasterCreation.ConfiguredStays | src/reader/reader_loop/modbus_device/modbus_device_unit.rs:22-41 | in every run that begins with a configuration each device keeps the number, the settings and as many requests as its values need |
| MasterService.IdleForEver | src/reader/reader_loop/reading_loop/read_master_struct.rs:103-319 | once an inactive device is chosen nothing is read again; with a connection the state never changes and, from time 1000 on, the loop turns at its floor of 20 ms |
| MasterService.FewPolls | src/reader/reader_loop/reading_loop/read_master_struct.rs:103-319 | behind an inactive first device, once polls set deadlines that are not before its own, fewer polls are completed in all time than there are devices, whatever happens in all other turns |
| MasterService.ServiceEndsInLoop | src/reader/reader_loop/reading_loop/read_master_struct.rs:103-319 | behind an inactive first device a healthy loop comes to that state after fewer turns than there are devices |
| MasterReports.TickSteps | src/reader/reader_loop/reading_loop/read_master_struct.rs:149-236 | a tick moves the requests of the device it reads through one cycle, cut short or not, and no others |
| MasterReports.LoopLives | src/reader/reader_loop/reading_loop/read_master_struct.rs:103-113 | over every run from a fresh start each device is the one first found, its requests after the cycles of exactly those turns that read it, in order |
| MasterReports.ReportsExactly | src/reader/reader_loop/reading_loop/read_master_struct.rs:253-278 | in any run from a fresh start the reports that the controller is sent are, in order, exactly one for every turn that reads a device through a completed cycle, of that device; recovery and reconnecting add none |
| MasterReports.StoryExactly | src/reader/reader_loop/reading_loop/read_master_struct.rs:103-501 | in any run from a fresh start the controller is told, message by message, what each turn prescribes: the attempt to connect and its outcome, then the report, the loss of the connection, or the recovery with its outcome |
| MasterReports.ReportsAccounted | src/reader/reader_loop/reading_loop/read_master_struct.rs:253-278 | in any run from a fresh start with every successful answer of full length, the reports account one by one and in order for what the completed cycles owe, told from the devices as they were created and the answers alone: the device, one measure per plugin of its planned requests that no earlier turn that read it had refused, at its own time and with a value if and only if the request was answered, and `Full`, `Failed` or partial as the answers call for |
| MasterReports.ReportsTrue | src/reader/reader_loop/reading_loop/read_master_struct.rs:253-278 | every measure that any run from a fresh start reports of a device is that of a value configured for it, and says what the memory behind the answers holds for that value, or that it could not be read |
| ReadMasterUnit.TryStep | src/reader/reader_loop/reading_loop/read_master_struct.rs:154-234 | the retry loop ends as the specification of one request says |
| ReadMasterUnit.ReadMaster.WhenNextDevice | src/reader/reader_loop/reading_loop/read_master_struct.rs:304-319 | the loop finds the device of the specification and its deadline, or the number 1000 if that device is inactive |
| ReadMasterUnit.ReadMaster.WhenNext | src/reader/reader_loop/reading_loop/read_master_struct.rs:91-101 | how long to wait: for devices, for the next attempt, or for the chosen device |
| ReadMasterUnit.ReadMaster.Disconnecting | src/reader/reader_loop/reading_loop/read_master_struct.rs:496-501 | the connection is gone, the controller knows, and the next attempt is a minute away |
| ReadMasterUnit.ReadMaster.CreateContext | src/reader/reader_loop/reading_loop/read_master_struct.rs:321-348 | connecting and what is said about it, for every outcome |
| ReadMasterUnit.ReadMaster.IncreaseTimeout | src/reader/reader_loop/reading_loop/read_master_struct.rs:291-302 | blame, disconnect and connect again, and a failed attempt disconnects once more |
| ReadMasterUnit.ReadMaster.CreateDevices | src/reader/reader_loop/reading_loop/read_master_struct.rs:350-366 | the devices whose values could be read, and the first choice among them |
| ReadMasterUnit.ReadMaster.ReadSteps | src/reader/reader_loop/reading_loop/read_master_struct.rs:149-236 | the nested loops, with refused steps marked in place, end as the specified cycle |
| ReadMasterUnit.ReadMaster.ReadDevice | src/reader/reader_loop/reading_loop/read_master_struct.rs:115-289 | a cycle is reported, dropped with the connection, or blamed on the current or the previous device |
| ReadMasterUnit.ReadMaster.Tick | src/reader/reader_loop/reading_loop/read_master_struct.rs:103-113 | one tick is the specified one |
| ReadMasterUnit.NodeLoop | src/reader/reader_loop/reading_loop/read_master.rs:22-53 | the loop over any run of surroundings reaches the specified state, and sleeps as specified after each tick |

## Left out

- HTTP routers, authentication, front end, logger, license and configuration encryption, SQL workers and schema: no part of this model.
- JSON parsing and serialization: settings and subscriptions are given as values, and a payload is always serializable.
- Sockets, channels and tasks: the network, the database and the other end of a channel are parameters or free choices, the clock is an input, and sleeping has no effect.
- `src/db/hasher/hash_unit.rs` with a capacity below 2, 64-bit overflow of times, NaN and signed zero as values: excluded by the premises.
- DbMeasureUnit.DbMeasureUnit.Flush: what a commit does is a free choice of three outcomes; the statements and timeouts are not modelled.
- MeasureMaster.MeasureMaster.ReadMeasure: the database is any function of tag and interval. Its interval includes the upper bound while the cache excludes it, and it does not see rows that are still buffered, so nothing is claimed about agreement between the two.
- ValueHasherUnit.ValueHasher.GetHashed: assumes time stamps that never go back, as the source does; a binary search over unordered slots means nothing.
- Plugins.BitsRoundTrip: bit indices outside 0 to 15 are taken modulo 16.
- Plugins.UnsignedRoundTrip: states the numerator and the power of ten; floating-point division and its rounding are not modelled.
- Plugins, steps and devices are values owned by their lists, as the vectors of the source own them; only lists, rings, subscribers and the reading loop are objects.
- ReadPlanner.GroupSort: the sort of the standard library is an insertion sort here; only the sorted list matters.
- PlanMeaning.GroupModeMeaning: start and length are cut to 16 bits as in the source, so addresses outside 0 to 65535 and 65536 registers in one list are excluded; the limit of 125 registers per request (section 6.3 of the MODBUS Application Protocol Specification) is not enforced by the source and not claimed.
- DevicePool.Distribute: a plugin whose settings cannot be parsed, which the source keeps with default settings, is excluded.
- ReadCycle.MeasuresAccounted: a clock that cannot be read, for which the source gives no measures, is excluded; a step refused in a cycle that is then cut short gives no measure at all.
- LiveCoordinator.LiveCoordinator.OnNew: subscriber objects are fresh, and numbers are compared exactly; a closed command channel, which the source only logs, and the panic on a closed event channel are not modelled.
- MasterService.OverdueIsServed: counts completed polls; a cycle cut short by a header mismatch or a lost connection moves no deadline, so the same device is tried again, and how often that can happen is not bounded.
- MasterSpec.TickSound: devices found without readable values of any of them stop the source, and are excluded; rebuilding devices or changing the address while running (`update`) is not modelled, and neither is a stale index after a rebuild to fewer devices.
- ReadMasterUnit.ReadMaster.ReadDevice: the slave address and the effect of a timeout on the answers are part of the network, which may answer anything.
- ReadMasterUnit.NodeLoop: configuration events are not modelled, and a sleep is only its length; `TryStep`, `ReadSteps`, `CloseSlot`, `TakeMatching` and similar methods hold statements that the source writes out in line.
