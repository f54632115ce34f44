# Quetz in Dafny

Quetz couples a QEMU guest to an SST timing model. This project models the algorithms whose guarantees run across
functions and across whole runs, and proves those guarantees for every input, every interleaving and every run.

* **Window data cache** (`WindowCache`, `CacheTransactions`, `CacheRefinement`, `CacheRuns`, `CacheMaintenance`,
  `CacheSwitch`, `CacheModes`, `CacheBank`, `CacheVisibility`, `CacheOwnership`, `WindowDataCache`, `CacheService`): the
  512-set, 4-way ColdFire cache with its `next`/`complete` half-steps. It refines one flat memory, its transactions are
  bounded, sweeps, invalidates and mode switches have exact effects, two cores can hand a line over with pushes and an
  invalidate, and a response reaches the cache that asked for it and no other. `CacheModes` says, over the bits of the
  control registers, what each access asks of memory and leaves in the lines.
* **Doorbell and offload engine** (`Trace`, `LineMath`, `MemoryIssue`, `Pipeline`, `EventPipeline`, `CommandRequests`,
  `PipelineProgress`, `FlushRange`, `AcceleratorPort`, `Offload`, `OffloadCount`, `BalarPort`, `DoorbellOrder`,
  `DoorbellOrigin`, `GuestDoorbells`, `GuestReplies`): from the plugin's ring through the core pipeline and its drain
  gate to the accelerator port. The end-to-end theorems say when a doorbell may be at the device, that the doorbells
  there are those the guests rang, at the packet addresses the guests gave, and that the requests a core sends are its
  commands'.
* **Shared-memory protocols** (`Mailbox`, `MailboxProgress`, `IrqMailbox`): every step is one shared load or store; any
  number of clients.
* **Accelerator device** (`KernelOp`, `KernelRange`, `KernelEnding`, `LaunchQueue`, `LaunchTiming`): windowed DMA with
  out-of-order responses, what it may touch and when its operations end, and the launch queue with counted level
  interrupts and how long each launch lasts.
* **FFT** (`Fft`): the in-place radix-2 transform is the DFT sum over any commutative ring.
* **Native RAM** (`NativeRam`): placement of regions in the shared block.

Pure code is modelled by functions; code that updates state by classes and loops proved against functions on values,
and the protocols by step machines on values, so that lemmas can speak about whole runs. Integers are unbounded and
every width that matters (64-bit addresses and clocks, 32-bit counters, sequence words and offsets) is written out.
Exceptions and `fatal` calls are a result value or an explicit stopped state; the claims that some of them cannot
happen are proved.

## Where the code falls short of the intended law

* The launch queue's law "submitted = retired + busy + queued" fails when clock plus latency is a multiple of 2^64,
  because the end time is then the idle value. `LargestLatencyVanishes` gives an input, `LawIffNoneVanished` and
  `RingKeepsLawIff` the exact condition.
* The same sum decides whether a kernel operation ends. `LargestLatencySticks` is a run from the initial state that
  computes an operation and never ends it; `WindowEndsIff` and `OperationEndsIff` say when the busy window and the
  operation end, as an if-and-only-if on clock and latency. `EveryScheduleEnds` shows for every schedule that the
  operation ends unless it was computed with a sum that wraps, and `EveryScheduleBounded` how soon.
* The async depth check is 32-bit: at depth 2^32 - 1 one submit too many is accepted and the counter wraps to zero.
  `DepthWraps` is a run from the initial state that does it, and `CountedIff` shows that the counting law holds in every
  run if and only if the depth is smaller. Everything else about the engine (`OffloadSafety`,
  `DoorbellReachesDeviceInOrder`) holds at every depth. The parameter's description says "per vCPU"; the counter is
  global and one vCPU may use it, and the model follows the code.
* The IRQ mailbox can lose a level when a 32-bit word wraps between two scans. For any burst of posts from a settled
  mailbox, `BurstHidesLevelIff` says when the next scan is skipped although a slot has changed (the posts to all slots
  together are a multiple of 2^32), and `BurstLosesLevelIff` when a whole scan leaves the report wrong (that, or the
  posts to the slot itself are one). `WrapLosesLevel` and `OthersLoseLevel` are two runs from the initial state; in the
  second a single post is lost. While no shadow the scan uses falls 2^32 posts behind, no level is lost
  (`NoLostLevel`).
* Control writes of the window cache can lose bytes, as the code says in its comments. Whole-cache invalidate loses the
  dirty bytes that differ from memory and nothing else (`InvalidateLosesExactlyDirtyBytes`). Any other one is safe if
  each resident line fits the new controls: clean where they inhibit it, equal to memory where they write it through,
  clean and equal to memory, or dirty, where they copy it back. `FlatMemoryRefinement` covers every run of such control
  writes, and `ControlWriteExact` shows that a control write that is not one makes some later run of reads, writes and
  pushes go wrong, so that the condition is exact as long as pushes invalidate.

## Model

| member | source | states |
|---|---|---|
| `WindowCache.ConfigurationKeepsStructure` | src/quetz_window_cache.h:41-56 | adding a region and reset keep the cache structure: dirty implies valid, aligned tags, each line in its own set, no tag twice, every valid line inside one region |
| `WindowCache.StartKeepsStructure` | src/quetz_window_cache.h:63-105 | every accepted access, MOVEC and CPUSHL keeps the cache structure |
| `WindowCache.NextKeepsStructure` | src/quetz_window_cache.h:107-166 | every half-step ends the transaction or leaves a request that lies in one registered region and in one line |
| `WindowCache.CompleteKeepsStructure` | src/quetz_window_cache.h:168-196 | every answer of the right length keeps the structure and leaves the transaction ready for its next half-step |
| `WindowCache.Find` | src/quetz_window_cache.h:216-221 | the slot found holds the line; no slot means no way of the set holds it |
| `WindowCache.Victim` | src/quetz_window_cache.h:222-228 | the victim is a slot of the set, outside the locked ways |
| `CacheTransactions.VictimIsTheSlotJustFreed` | src/quetz_window_cache.h:134-145 | after an eviction the refill takes the very slot just freed, with or without way locking |
| `CacheTransactions.NextCost` | src/quetz_window_cache.h:107-196 | every answered request strictly lowers the cost left, so the service loop terminates |
| `CacheTransactions.Run` | src/quetzcpu_mmio_sync.cc:269-312 | driving a transaction to its end leaves an idle valid cache with the same regions and controls after at most its cost in requests |
| `CacheTransactions.BoundedTransactions` | src/quetz_window_cache.h:107-166 | an access makes at most four backing requests, a CPUSHL at most one, a MOVEC none |
| `CacheRefinement.ModeConstantOnLine` | src/quetz_window_cache.h:234-251 | the bit-level mode decision is the same for all bytes of a line |
| `CacheRefinement.CopybackHitRefines` | src/quetz_window_cache.h:146-161 | a copyback write hit changes the view, which is memory with the resident lines that are not inhibited laid over it, exactly as a flat write of those bytes |
| `CacheRefinement.BypassWriteRefines` | src/quetz_window_cache.h:128-133 | a bypassed write changes the view exactly as a flat write, also past a resident line |
| `CacheRefinement.MissRefines` | src/quetz_window_cache.h:134-145 | fills and dirty evictions leave the view unchanged |
| `CacheRefinement.ThroughRefines` | src/quetz_window_cache.h:150-155 | a write-through hit changes line and memory together, as a flat write, also when the line was dirty |
| `CacheRefinement.RunRefines` | src/quetz_window_cache.h:107-196 | a whole access, with all its half-steps, reads flat memory's bytes and writes as one flat write |
| `CacheRuns.PushExact` | src/quetz_window_cache.h:97-118 | CPUSHL writes its slot back if dirty, cleans it and invalidates it unless retained, and changes nothing else |
| `CacheRuns.MovecExact` | src/quetz_window_cache.h:75-94 | MOVEC changes just its register, and for the invalidate bit every line |
| `CacheRuns.ExecRefines` | src/quetz_window_cache.h:63-196 | one command on the cache refines the same command on flat memory, for a control write if each resident line fits the new controls |
| `CacheRuns.RunFromCoherent` | src/quetz_window_cache.h:63-196 | the same for any sequence of commands from any coherent state, resident inhibited lines with stale bytes included |
| `CacheRuns.FlatMemoryRefinement` | src/quetz_window_cache.h:52-196 | from an empty cache, every run of commands whose control writes fit the resident lines returns and leaves what one flat memory would |
| `CacheMaintenance.SweepExact` | src/quetz_window_cache.h:97-118 | a sequence of pushes writes back exactly the dirty lines of the slots it names |
| `CacheMaintenance.AllOperandsCover` | src/quetz_window_cache.h:96-105 | the 2048 set and way operands select every slot |
| `CacheMaintenance.FlushSweep` | src/quetz_window_cache.h:52-56 | a sweep of all slots leaves no dirty line and memory with every formerly dirty line's bytes, unchanged elsewhere, whatever the enable bit |
| `CacheMaintenance.FlushSweepIsView` | src/quetz_window_cache.h:183-187 | if clean lines agreed with memory, memory equals the view after the sweep |
| `CacheMaintenance.InvalidateLosesExactlyDirtyBytes` | src/quetz_window_cache.h:84-90 | whole-cache invalidate keeps the view if and only if every dirty line's bytes are in memory |
| `CacheMaintenance.InhibitedReadIsMemory` | src/quetz_window_cache.h:128-133 | an inhibited read returns memory, not the cache |
| `CacheMaintenance.StaleInhibitedRead` | src/quetz_window_cache.h:128-133 | after a control write that inhibits a cached line, the read of a byte in which line and memory differ is wrong against flat memory |
| `CacheMaintenance.ThroughByteWrite` | src/quetz_window_cache.h:146-155 | a write-through byte write to a resident line changes that byte in line and memory and marks the line clean |
| `CacheMaintenance.ThroughSwitchLosesDirtyBytes` | src/quetz_window_cache.h:190-193 | a dirty line written through after a mode switch and then pushed out loses its other dirty bytes |
| `CacheSwitch.ByteReadIs` | src/quetz_window_cache.h:120-166 | a byte read returns the resident line's byte if there is one and its address is not inhibited, and memory's otherwise, whatever it evicts or fills |
| `CacheSwitch.ControlWriteExact` | src/quetz_window_cache.h:52-94 | after any MOVEC or reset, every run of reads, writes and pushes answers as flat memory would if each resident line fits the new controls (or, for an invalidate, each dirty line is in memory), and only if, unless pushes now retain a dirty write-through line that is not in memory |
| `CacheModes.PastCacheAccess` | src/quetz_window_cache.h:128-133 | with CACR bit 31 clear, or the high mode bit of the governing register set, an access is one request for exactly its bytes and no line is looked at or changed; ACR0 governs before ACR1 and both before CACR, and an ACR governs an address if it is enabled, its S field is nonzero and its AMM or mask form fits, bit by bit |
| `CacheModes.ThroughMiss` | src/quetz_window_cache.h:128-133 | mode bits 00: a store that misses sends exactly its bytes and allocates nothing |
| `CacheModes.ThroughHit` | src/quetz_window_cache.h:146-155 | mode bits 00: a store that hits puts its bytes into the line and, in one request, into memory, and the line ends clean |
| `CacheModes.CopybackHit` | src/quetz_window_cache.h:146-161 | mode bits 01: a store that hits stays in the line, which ends dirty; no request |
| `CacheModes.CachedReadHit` | src/quetz_window_cache.h:146-161 | high mode bit clear: a load that hits returns the line's bytes; no request |
| `CacheModes.CopybackMiss` | src/quetz_window_cache.h:134-161 | mode bits 01: a store that misses writes a dirty victim back, fills the line and leaves it dirty with the bytes written, its own bytes in memory untouched; the slot is the lowest unused unlocked way, else the one the counter points at, and the counter moves on |
| `CacheModes.CachedReadMiss` | src/quetz_window_cache.h:134-161 | high mode bit clear: a load that misses does the same, leaves the line clean and returns memory's bytes |
| `CacheModes.FourMissesReplaceAll` | src/quetz_window_cache.h:222-228 | round robin: four loads that miss in a full unlocked set replace all four ways, wherever the counter stands, in the counter's order |
| `CacheModes.MovecByBits` | src/quetz_window_cache.h:75-94 | which MOVECs are accepted, by register and bits, and the whole state an accepted one leaves |
| `CacheModes.CpushlByBits` | src/quetz_window_cache.h:97-105 | which CPUSHLs are accepted, by the fields of the instruction word |
| `CacheModes.CpushlEffect` | src/quetz_window_cache.h:97-118 | a CPUSHL without the data bit does nothing; with it the slot of way bits 1:0 and set bits 12:4 is written back if dirty and dropped unless CACR bit 28 retains it |
| `CacheModes.AddRegionIff` | src/quetz_window_cache.h:41-50 | a region is accepted if and only if the cache is idle and it is 16 bytes to 1 MiB of whole lines in the 32-bit space sharing no byte with another |
| `CacheBank.Step` | src/quetz_window_cache_bank.h:36-58 | any interleaving of starts, half-steps, services and deliveries keeps every core's cache valid and its outstanding request the one its state expects |
| `CacheBank.NextLine` | src/quetz_window_cache.h:107-166 | what a half-step of any transaction can do to one given line |
| `CacheBank.CompleteLine` | src/quetz_window_cache.h:168-196 | what an answer can do to one given line |
| `CacheVisibility.CopybackWriteOwns` | src/quetz_window_cache.h:146-161 | a finished copyback write leaves its core holding the line dirty with the written bytes |
| `CacheVisibility.OwnedKept` | src/quetz_window_cache_bank.h:36-58 | until pushed out, the owner keeps the line's bytes through every step of every core that does not write the line |
| `CacheVisibility.PublishRun` | src/quetz_window_cache.h:183-187 | once the owner has pushed all four ways of the set, memory holds the bytes and no core holds the line dirty |
| `CacheVisibility.InvalidateMakesVisible` | src/quetz_window_cache.h:84-90 | after a whole-cache invalidate a core has no stale copy |
| `CacheVisibility.TwoCoreVisibility` | src/quetz_window_cache.h:75-118 | once a core holds the line dirty: push four ways, invalidate, read, and the reader gets the owner's bytes in every interleaving |
| `CacheVisibility.TwoCoreHandover` | src/quetz_window_cache.h:63-118 | one core writes copyback, pushes four ways, the other invalidates and reads: the reader gets the bytes written, in every interleaving with the other cores and whatever else is resident |
| `CacheOwnership.WindowCacheBank.Issue` | src/quetz_window_cache_bank.h:36-43 | a core's half-step advances its own cache only and records the request it makes under a new id; with the core idle, a request out or the id in use it is refused and changes nothing |
| `CacheOwnership.WindowCacheBank.Complete` | src/quetz_window_cache_bank.h:49-58 | a response is delivered into the cache of the core that asked and no other, of the kind it asked for, of the right length, once; anything else changes no cache |
| `CacheOwnership.WindowCacheBank.ResetCore` | src/quetz_window_cache_bank.h:60-65 | a reset is accepted exactly when the core has nothing outstanding and its cache is idle, clears that core's controls and changes no other core |
| `WindowDataCacheObject.WindowDataCache.AddRegion` | src/quetz_window_cache.h:41-50 | the object's region table changes as specified, or not at all when refused |
| `WindowDataCacheObject.WindowDataCache.Access` | src/quetz_window_cache.h:63-72 | starts the specified transaction or refuses and changes nothing |
| `WindowDataCacheObject.WindowDataCache.Movec` | src/quetz_window_cache.h:75-94 | in-place invalidate and register update as specified, counting discarded dirty lines |
| `WindowDataCacheObject.WindowDataCache.Push` | src/quetz_window_cache.h:97-105 | selects the slot and retention as specified |
| `WindowDataCacheObject.WindowDataCache.FindSlot` | src/quetz_window_cache.h:216-221 | the search loop is the specified lookup |
| `WindowDataCacheObject.WindowDataCache.VictimSlot` | src/quetz_window_cache.h:222-228 | the victim loop is the specified choice |
| `WindowDataCacheObject.WindowDataCache.Next` | src/quetz_window_cache.h:107-166 | the in-place half-step with its loop leaves the specified state and action, or reports the ordering error |
| `WindowDataCacheObject.WindowDataCache.Complete` | src/quetz_window_cache.h:168-196 | the in-place answer leaves the specified state, or reports a short or unexpected answer |
| `CacheService.RequestStaysInNativeRegion` | src/quetzcpu_mmio_sync.cc:283-294 | a backing request that starts in a native region ends in it: the boundary error cannot happen |
| `CacheService.ServiceIsRun` | src/quetzcpu_mmio_sync.cc:269-312 | the service loop over native regions is the run of the transaction, up to the first request it has to send out |
| `CacheService.ServiceWindowCache` | src/quetzcpu_mmio_sync.cc:269-312 | the loop on the cache object and RAM computes that, without ever hitting the boundary error |
| `CacheService.PackedValue` | src/quetzcpu_mmio_sync.cc:130-143 | unpacking the big-endian bytes of any packed value gives the value modulo 256 to its size |
| `CacheService.WriteReadsBack` | src/quetzcpu_mmio_sync.cc:269-312 | a window write of any value followed by any commands that leave its bytes alone is read back as the value cut to its size |
| `Fft.ReverseInvolution` | src/quetz_fft.h:36-41 | reversing the bits of an index twice gives the index |
| `Fft.PairsDisjoint` | src/quetz_fft.h:44-50 | the index pairs of a stage do not overlap |
| `Fft.Decimate` | src/quetz_fft.h:43-60 | a polynomial splits into its even and odd parts |
| `Fft.Butterfly` | src/quetz_fft.h:52-58 | one butterfly gives the transform at k and at k plus half from the two half transforms |
| `Fft.StageBlocks` | src/quetz_fft.h:43-60 | a stage turns blocks of half transforms into blocks of full ones |
| `Fft.ReverseBits` | src/quetz_fft.h:38-39 | the shift loop computes the reversed index |
| `Fft.BitReverse` | src/quetz_fft.h:36-41 | the swap loop permutes the array by bit reversal |
| `Fft.Stage` | src/quetz_fft.h:43-60 | the butterfly loop does every pair of the stage once |
| `Fft.FftRadix2` | src/quetz_fft.h:29-61 | for every power-of-two length the array ends as the DFT sum of its old contents, in any commutative ring with a root whose half power is minus one |
| `Fft.ComplexLaws` | src/quetz_fft.h:51-58 | exact complex arithmetic is such a ring |
| `Fft.ComplexFft` | src/quetz_fft.h:29-61 | the transform over exact complex numbers |
| `Mailbox.StepKeeps` | qemu-overlay/quetz_ipc_client.c:201-269 | every single load or store of every client and of the simulator keeps the protocol invariant |
| `Mailbox.MailboxSafety` | src/qemu_plugin/instrument.cpp:104-124 | in every interleaving the cache-op client's fatal is unreachable, one client is inside, a free lock means an empty mailbox, and every call got the answer to its own request |
| `Mailbox.PublishedRequestStable` | qemu-overlay/quetz_ipc_client.c:228-269 | no step changes a request field while a request is pending, taken or being answered |
| `Mailbox.TakesWholeRequest` | src/quetzcpu_mmio_sync.cc:108-122 | the simulator never takes a torn request |
| `MailboxProgress.CallCanFinish` | qemu-overlay/quetz_ipc_client.c:201-269 | from every state of every run a call waiting for the lock can still return, with any answer, within a stated number of steps: no interleaving wedges the mailbox |
| `MailboxProgress.HeldCallCanFinish` | qemu-overlay/quetz_ipc_client.c:228-269 | so can the call that holds the lock |
| `IrqMailbox.StepKeeps` | src/quetz_mmio_sync.h:46-59 | every single store of a post and every load of a drain keeps the invariant |
| `IrqMailbox.NoLostLevel` | qemu-overlay/quetz_ipc_client.c:271-319 | in every interleaving, with scans cut short or not, a settled mailbox has reported the current level of every polled slot, as long as fewer than 2^32 posts go by between two updates of the generation shadow, and between two of each polled slot's shadow |
| `IrqMailbox.BurstHidesLevelIff` | qemu-overlay/quetz_ipc_client.c:285-292 | any burst of posts to any slots, from a settled mailbox that has reported the slot, leaves a settled mailbox with a wrong report if and only if the number of posts is a multiple of 2^32 and the last level posted to the slot is another one |
| `IrqMailbox.BurstLosesLevelIff` | qemu-overlay/quetz_ipc_client.c:285-319 | after such a burst and one whole scan the mailbox is settled, and its report wrong if and only if the slot's level is another one and all posts together, or those to the slot, are a multiple of 2^32 |
| `IrqMailbox.WrapLosesLevel` | qemu-overlay/quetz_ipc_client.c:285-306 | a run from the initial state that loses a level: 2^32 posts to one slot |
| `IrqMailbox.OthersLoseLevel` | qemu-overlay/quetz_ipc_client.c:285-292 | another one: a single post, and 2^32 - 1 posts to another slot |
| `Trace.RetireRecords` | src/qemu_plugin/plugin_state.cpp:45-68 | each retired instruction adds exactly its own commands to what is recorded |
| `Trace.CoalescingRoundTrip` | src/qemu_plugin/mem_access_handler.cpp:90-93 | for every instruction stream the expanded ring plus the gathered run is the uncoalesced stream; after any non-compute instruction the ring alone is; runs have 1 to 4096 instructions |
| `Trace.RunsMaximal` | src/qemu_plugin/plugin_state.cpp:59-68 | without a mailbox access in between, a run on the ring ends only with 4096 instructions or before an instruction of another kind or class |
| `Trace.StreamDescribed` | src/qemu_plugin/plugin_state.cpp:70-92 | what the ring and the gathered run expand to describes the traced instructions one by one: kind, address, size, the bytes of a store of at most 64, and class |
| `Trace.TracePlugin.AccumulateCompute` | src/qemu_plugin/plugin_state.cpp:59-68 | the in-place accumulator adds one instruction and flushes on a class change or a full run |
| `Trace.TracePlugin.Flush` | src/qemu_plugin/plugin_state.cpp:45-57 | after a flush the ring holds everything recorded |
| `Trace.TracePlugin.HandleMemory` | src/qemu_plugin/mem_access_handler.cpp:90-93 | a memory access puts the gathered run on the ring before its own command |
| `Trace.PlainRefillTakes` | src/quetz_pipeline_input.cc:44-87 | an uncoalesced refill stages the longest prefix that fits, up to and including an EXIT |
| `Trace.PlainRun` | src/quetz_pipeline_input.cc:91-98 | staging part of a run does not change where the refill ends |
| `Trace.PipelineInput.Refill` | src/quetz_pipeline_input.cc:44-98 | refill on a coalesced ring with a carried-over run equals refill on the expanded stream, for every queue and cap |
| `MemoryIssue.PiecesTile` | src/quetz_mem_issue.cc:97-231 | the requests of a cached access are contiguous, nonempty, inside one line each, cover exactly the bytes to send and carry exactly the captured payload |
| `MemoryIssue.PiecesCount` | src/quetz_memory_span.h:22-25 | their number is the slot formula, which does not wrap on a valid span |
| `MemoryIssue.WithinLine` | src/quetz_memory_span.h:16-20 | a chunk starts and ends in the same line |
| `MemoryIssue.ChunkIs` | src/quetz_memory_span.h:16-20 | the modular chunk size is the line-by-line one |
| `MemoryIssue.MemRequestEmitter.IssueWindow` | src/quetz_mem_issue.cc:62-239 | a window sends the next requests in order, as many as the budget allows, and moves the cursor to match; a wrapping access is refused |
| `MemoryIssue.MemRequestEmitter.HandleResponse` | src/quetz_mem_issue.cc:241-265 | a response is matched once, and the pending count is the number of unanswered requests |
| `Pipeline.TickKeeps` | src/quetz_pipeline.cc:59-123 | a tick keeps the stream in order, sends exactly the requests of the commands it works off, at most the issue limit, and never exceeds the pending limit |
| `Pipeline.IssueTurnKeeps` | src/quetz_pipeline.cc:125-146 | one issue turn within its budget |
| `Pipeline.HeadTurnKeeps` | src/quetz_pipeline_transform.cc:37-83 | one look at the head: consume, halt, stall, NOP or start an operation |
| `Pipeline.LoopSeesExit` | src/quetz_pipeline.cc:76-118 | a queue worked off without halting held no EXIT |
| `Pipeline.DrainSound` | src/quetz_pipeline.h:56-62 | after a tick, an empty queue without the cap flag means nothing is left of what was on the ring |
| `Pipeline.CapFlagNeeded` | src/quetz_pipeline.cc:65-73 | without the cap flag the drain test would be wrong |
| `Pipeline.StallLasts` | src/quetz_pipeline_transform.cc:51-58 | the head of the queue stalls for exactly its latency, and nothing is popped, issued or counted meanwhile |
| `Pipeline.TickCounts` | src/quetz_pipeline.cc:48-57 | every command worked off counts as one instruction, except the one that halts the core, and the core halts exactly at the limit |
| `Pipeline.CommandStalls` | src/quetz_pipeline_transform.cc:51-58 | a command that reaches an empty queue is worked on only after as many ticks as its class's execution latency (loads and stores) or compute latency (NOP), with nothing issued meanwhile |
| `CommandRequests.RequestsCarry` | src/quetz_pipeline_output.cc:50-59 | the requests of a command that goes out are reads if and only if it is a load, on the MMIO path if and only if its region says so, tile its bytes from its address without gap, at most 64 for a store, and the stores' data is the command's |
| `CommandRequests.RequestsAreTheCommands` | src/quetz_pipeline.cc:59-146 | in every run of a core the commands worked off are a prefix of those put on its ring, and what it has sent divides into the requests of those commands, in order, and the beginning of the next one's |
| `CommandRequests.HaltsExactly` | src/quetz_pipeline_transform.cc:43-50 | in every run the core halts exactly at the first command that ends the run or at the instruction limit, works nothing off afterwards, and reports an exit exactly for EXIT |
| `PipelineProgress.TickWorksOn` | src/quetz_pipeline.cc:59-146 | in every run no request leaves the address space, and every tick of a running core goes on until its queue is empty, the core halts, the access at the head leaves the address space, the issue or the pending limit is used up, or the head pays one of the stall cycles it owes; a command that becomes the head owes its whole latency |
| `EventPipelineObject.EventPipeline.Tick` | src/quetz_pipeline.cc:59-123 | the object's tick with its loops is the specified one, and the two output-stage fatals are unreachable |
| `EventPipelineObject.EventPipeline.IssueMemOp` | src/quetz_pipeline.cc:125-146 | issuing through the retained cursor is the specified turn |
| `EventPipelineObject.EventPipeline.IssueAvailable` | src/quetz_pipeline_output.cc:50-59 | the cursor moves with the requests and returns to zero exactly at completion |
| `EventPipelineObject.EventPipeline.IsDrained` | src/quetz_pipeline.h:56-62 | the method returns the specified drain test |
| `FlushRange.FlushRangeExact` | src/quetz_balar_flush_range.h:20-48 | the computation succeeds if and only if the line size is nonzero and the packet's end and last line's end are representable, and then gives first line, end and line count without wrap-around |
| `FlushRange.LinesAreTheOnesMet` | src/quetz_balar_flush_range.h:27-37 | the lines are exactly the aligned ones that meet the packet, once each |
| `FlushRange.IssueFlushes` | src/quetz_balar_accelerator_port.cc:257-274 | the issue loop sends those lines in order and its overflow fatal is unreachable |
| `AcceleratorPort.ForwardKeeps` | src/quetz_balar_accelerator_port.cc:288-311 | forwarding or queueing a doorbell keeps the vCPU's bookkeeping and acknowledges a submit once |
| `AcceleratorPort.HandleKeeps` | src/quetz_balar_accelerator_port.cc:66-197 | handling any request keeps the bookkeeping; no nested-doorbell fatal |
| `AcceleratorPort.ProcessKeeps` | src/quetz_balar_accelerator_port.cc:199-286 | opening the gate starts exactly one flush per packet line, or forwards at once |
| `AcceleratorPort.FlushAnsweredKeeps` | src/quetz_balar_accelerator_port.cc:318-357 | the context counts exactly the unanswered flushes, and the doorbell goes on with the last one |
| `AcceleratorPort.AsyncAnsweredKeeps` | src/quetz_balar_accelerator_port.cc:377-398 | a retirement lets the next queued doorbell out, in order |
| `Offload.StepKeeps` | src/quetz_balar_accelerator_port.cc:66-403 | every step of the port, in any order, keeps the tables in agreement with the lanes |
| `Offload.OffloadSafety` | src/quetz_balar_accelerator_port.cc:146-403 | in every run and at every depth: no nested doorbell or stray response; submitted - completed = armed + flushing + running + queued; a queue means one is running; tickets reach the device one at a time in submit order; each submit is acknowledged once, after its flush; only the engine's owner has any |
| `OffloadCount.StepCounts` | src/quetz_balar_accelerator_port.cc:146-403 | every step keeps in flight = submitted - completed within the depth, below depth 2^32 - 1 |
| `OffloadCount.RunCounts` | src/quetz_balar_accelerator_port.cc:146-403 | so does every run |
| `OffloadCount.RegistersAgree` | src/quetz_balar_accelerator_port.cc:130-144 | STATUS is the number of posted operations wherever they are, TICKET minus COMPLETED the same number, and reading changes nothing |
| `OffloadCount.FillTo` | src/quetz_balar_accelerator_port.cc:163-173 | n submits with no answer from the device put n operations in flight, for every n up to the depth |
| `OffloadCount.DepthWraps` | src/quetz_balar_accelerator_port.cc:163-173 | at depth 2^32 - 1 a run from the initial state has 2^32 operations out and a counter that reads zero |
| `OffloadCount.CountedIff` | src/quetz_balar_accelerator_port.cc:163-173 | in flight = submitted - completed, within the depth, in every run if and only if the depth is below 2^32 - 1 |
| `BalarPortObject.ProcessIsRun` | src/quetz_balar_accelerator_port.cc:199-214 | a call of process is a run of gate openings, so everything proved of runs holds of it |
| `BalarPortObject.ProcessOpensDrained` | src/quetz_balar_accelerator_port.cc:199-214 | after process a doorbell is still armed exactly if it was and its core is not drained |
| `BalarPortObject.BalarAcceleratorPort.HandleCommand` | src/quetz_balar_accelerator_port.cc:66-197 | the object's tables change in place as specified and keep the invariant |
| `BalarPortObject.BalarAcceleratorPort.Process` | src/quetz_balar_accelerator_port.cc:199-286 | the loop over armed doorbells, with its flush loop, is the specified process |
| `BalarPortObject.BalarAcceleratorPort.HandleFlushResponse` | src/quetz_balar_accelerator_port.cc:318-357 | a flush response is handled as specified, keeps the invariant and hits no fatal |
| `BalarPortObject.BalarAcceleratorPort.HandleDeviceResponse` | src/quetz_balar_accelerator_port.cc:359-403 | a device response is as specified and keeps the invariant |
| `DoorbellOrder.GateDrained` | src/quetz_balar_accelerator_port.cc:199-214 | a core that passes the drain test after its tick has sent, and been answered, everything put on its ring, unless halted |
| `DoorbellOrder.TickCoreKeeps` | src/quetzcpu.cc:302-319 | the tick makes the drain test sound again because the poll came first |
| `DoorbellOrder.StepKeeps` | src/quetzcpu.cc:297-319 | every step of guests, ticks, memory and device keeps the order invariant |
| `DoorbellOrder.DoorbellReachesDeviceInOrder` | src/quetz_balar_accelerator_port.cc:199-311 | in every run a doorbell is at the device only when every command put on the ring before it has been issued and answered, unless the core halted, and exactly its packet's lines have been flushed and answered |
| `DoorbellOrigin.BellsAreThePublished` | src/quetz_balar_accelerator_port.cc:66-311 | in every run, per vCPU and kind, the doorbells published, with their packet addresses and ring positions, are those at the device, in the same order, followed by those the port still holds: none lost, changed, repeated or overtaken |
| `DoorbellOrigin.FlushedAreThePackets` | src/quetz_balar_accelerator_port.cc:216-286 | in every run the lines flushed for a vCPU are the packet lines of the doorbells it published, in order and once each, but for the one that has not passed the gate; an aperture write has lines only if flushing is on and its vCPU has a cache interface |
| `DoorbellOrigin.DeviceBellPublished` | src/quetz_balar_accelerator_port.cc:288-311 | a doorbell at the device is one its own vCPU published, at that packet address |
| `GuestDoorbells.DoorbellsAreTheGuests` | src/quetz_balar_accelerator_port.cc:66-311 | the same in every interleaving of guests, ticks, memory and device, for the doorbells the guests rang |
| `GuestDoorbells.RungDoorbellInOrder` | src/quetz_balar_accelerator_port.cc:199-311 | a doorbell at the device is one its own guest rang, at that packet address, and, for every SUBMIT and for every aperture write when flushing is on and the vCPU has a cache interface, every command its guest put on the ring before it has been issued and answered, unless the core halted, and exactly its packet's lines flushed and answered |
| `GuestReplies.StepReplies` | src/quetz_balar_accelerator_port.cc:66-403 | every reply a step gives a guest: the device's value for a read, the register for a register read, zero for a write, and nothing in any other step |
| `GuestReplies.CallsAnsweredOnce` | src/quetz_balar_accelerator_port.cc:66-403 | in every run each mailbox call of each vCPU is answered exactly once, but for the one its guest waits in |
| `GuestReplies.StopsIff` | src/quetz_balar_accelerator_port.cc:66-274 | a step stops the simulation if and only if it is one of the refusals: a second vCPU on the engine, a SUBMIT without doorbell address or cache interface or beyond the depth, a packet whose lines cannot be computed or counted |
| `KernelOp.IssueReadsKeeps` | src/quetz_gpu_device.cc:658-670 | the read window keeps at most 64 requests out, each in range and inside one line |
| `KernelOp.AnsweredKeeps` | src/quetz_gpu_device.cc:672-686 | an answer in any order puts memory's bytes in their place |
| `KernelOp.ReadComplete` | src/quetz_gpu_device.cc:684-686 | with nothing left to read the input buffer is memory at [src, src + n) |
| `KernelOp.WriteRespKeeps` | src/quetz_gpu_device.cc:741-778 | the writes tile the output; the last answer completes the operation once and releases one response |
| `KernelOp.RingKeeps` | src/quetz_gpu_device.cc:382-399 | a doorbell starts or rejects one operation and owes at most one response |
| `KernelOp.KernelOpSafety` | src/quetz_gpu_device.cc:594-778 | in every run of operations and guest stores and every order of responses: at most 64 requests out, in range and in line; submitted = completed + rejected + in progress; one response per doorbell that expects one |
| `KernelRange.RequestsInside` | src/quetz_gpu_device.cc:612-623 | in every run, whatever the guest programs, every read and write of an operation is 1 to 64 bytes with addr + len <= 2^64 and, if a range is configured, rangeStart <= addr and addr + len - 1 <= rangeEnd |
| `KernelRange.RequestsFull` | src/quetz_gpu_device.cc:658-670 | in every run 64 requests are out until everything has been asked for, each of 64 bytes unless the line or the buffer ends before |
| `KernelRange.RejectedAtStartIff` | src/quetz_gpu_device.cc:625-645 | a doorbell on an idle device is rejected at once if and only if the kernel refuses the arguments or the source bytes or the first destination byte fail those bounds |
| `KernelRange.RejectedIff` | src/quetz_gpu_device.cc:594-778 | from doorbell to end, in every order of responses, an operation with an output is rejected if and only if the kernel refuses the arguments or the source bytes or the whole output fail those bounds, and completed otherwise |
| `KernelRange.StopsIff` | src/quetz_gpu_device.cc:382-713 | a step stops the simulation if and only if it rings a busy device or runs the kernel without getting output |
| `KernelRange.PollEndsWindow` | src/quetz_gpu_device.cc:298-310 | a status poll ends a busy window that is due |
| `KernelEnding.WithinEnds` | src/quetz_gpu_device.cc:594-778 | an operation in progress is neither completed nor rejected, ends in exactly one of the two, counted once, and its arguments and source memory never change |
| `KernelEnding.WindowIsLatency` | src/quetz_gpu_device.cc:688-722 | the busy window is the guest's override if there is one, else the kernel's own latency, else the device's; with none the result is written back at once |
| `KernelEnding.CompletionStoresResult` | src/quetz_gpu_device.cc:594-778 | after any earlier operations, a completed one leaves the kernel's output on the bytes memory held at its doorbell, at the destination, and memory as it was elsewhere; a rejected one leaves memory as it was |
| `KernelEnding.WindowLasts` | src/quetz_gpu_device.cc:298-310 | the busy window lasts exactly up to its end time, also when that or the clock has wrapped |
| `KernelEnding.WindowEndsIff` | src/quetz_gpu_device.cc:688-722 | some number of ticks takes a computed operation out of its busy window if and only if clock plus latency is not a multiple of 2^64 |
| `KernelEnding.EveryScheduleBounded` | src/quetz_gpu_device.cc:594-778 | in every schedule an operation takes at most a stated number of responses and busy ticks |
| `KernelEnding.OperationEndsIff` | src/quetz_gpu_device.cc:594-778 | if responses come before the next tick, in whichever order, then from every reachable state with an operation in progress it is completed or rejected within some number of responses and ticks if and only if clock plus latency does not wrap to zero, and the stated number is enough |
| `KernelEnding.EveryScheduleEnds` | src/quetz_gpu_device.cc:594-778 | in every schedule, once no response is due and no busy tick is to go, the operation has ended in one completion or rejection, unless it was computed at a clock and with a latency whose sum wraps to zero, and then it is stuck |
| `KernelEnding.StuckStays` | src/quetz_gpu_device.cc:298-310 | an operation computed with the idle end time is ended by no step of any kind |
| `KernelEnding.LargestLatencySticks` | src/quetz_gpu_device.cc:688-722 | for every kernel and every accepted argument, a run from the initial state that computes the operation and never ends it |
| `KernelEnding.EchoSticks` | src/quetz_gpu_device.cc:688-722 | a concrete device with such a run |
| `KernelOp.KernelDevice.OnReadResponse` | src/quetz_gpu_device.cc:672-686 | the in-place handler with its copy and issue loops is the specified one |
| `KernelOp.KernelDevice.OnWriteResponse` | src/quetz_gpu_device.cc:741-762 | likewise for write responses |
| `LaunchQueue.DrainKeeps` | src/quetz_gpu_device.cc:326-335 | zero-latency launches strand nothing behind them |
| `LaunchQueue.AckIrqKeeps` | src/quetz_gpu_device.cc:279-296 | an acknowledge consumes as many events as it asks for or all there are, lowers the line exactly when none is left, and keeps the invariant |
| `LaunchQueue.LaunchQueueSafety` | src/quetz_gpu_device.cc:216-336 | in every run: launches start in order, at most 8 queued, a queue means busy, events = retires - consumed, line high exactly while there are events, levels alternate, outstanding work holds the simulation open, and the counting law with vanished launches on the books |
| `LaunchTiming.StaysBusy` | src/quetz_gpu_device.cc:298-348 | a running launch is not retired and nothing else starts, under any mix of doorbells, polls, acknowledges, overrides and ticks that leaves the clock below its end; doorbells queue behind it |
| `LaunchTiming.RetiredOnTime` | src/quetz_gpu_device.cc:298-348 | the tick that reaches the end retires the launch once, with the zero-latency launches behind it, and starts the next one at that clock |
| `LaunchTiming.LaunchLasts` | src/quetz_gpu_device.cc:221-240 | in every run a launch of latency L (the override if nonzero, else the device's) on an idle device runs, nothing retired, through any steps with fewer than L ticks, and the L-th tick retires it |
| `LaunchTiming.QueuedLasts` | src/quetz_gpu_device.cc:298-336 | a queued launch starts with its predecessor's retire and then lasts its own latency in the same way |
| `LaunchTiming.WrappedEndsAtOnce` | src/quetz_gpu_device.cc:298-310 | an end time that wrapped, but not to zero, is retired by the next tick, doorbell or poll |
| `LaunchTiming.DoorbellDroppedIff` | src/quetz_gpu_device.cc:401-426 | a doorbell is dropped if and only if eight launches are queued once a due one has been retired, and otherwise accepted with its latency |
| `LaunchTiming.TickHoldsIff` | src/quetz_gpu_device.cc:242-251 | after a tick the device holds the simulation open exactly while it has work |
| `LaunchTiming.OverrideServesOne` | src/quetz_gpu_device.cc:403-407 | an override is the latency of one launch only |
| `LaunchTiming.AckStep` | src/quetz_gpu_device.cc:279-296 | in every run an acknowledge of n consumes n completions or all there are, and the line is up exactly while some are left |
| `LaunchQueue.LawIffNoneVanished` | src/quetz_gpu_device.cc:221-240 | the counting law holds after a run if and only if no launch began at a clock and latency whose sum wraps to zero |
| `LaunchQueue.RingKeepsLawIff` | src/quetz_gpu_device.cc:401-426 | a doorbell on an idle device keeps the law if and only if its end time does not wrap to zero |
| `LaunchQueue.LargestLatencyVanishes` | src/quetz_gpu_device.cc:221-240 | a concrete run that loses a launch |
| `LaunchQueue.GpuDevice.Retire` | src/quetz_gpu_device.cc:298-336 | the in-place retire with its drain loop is the specified one |
| `LaunchQueue.GpuDevice.Doorbell` | src/quetz_gpu_device.cc:401-426 | the in-place doorbell is the specified one |
| `LaunchQueue.GpuDevice.TickBusy` | src/quetz_gpu_device.cc:338-348 | the in-place tick is the specified one |
| `NativeRam.StoreJustLargeEnough` | include/quetz/quetz_ipc_types.h:84-135 | every list the parser accepts is placed validly at every alignment of the block if and only if the store has at least 3 * 64 KiB - 1 bytes |
| `NativeRam.BackingsDisjoint` | include/quetz/quetz_ipc_types.h:90-110 | backings are inside the store and disjoint |
| `NativeRam.RemappingKeepsValidity` | include/quetz/quetz_ipc_types.h:97-101 | mapping the block a whole number of pages away does not change validity |
| `NativeRam.NativeRegionsValid` | include/quetz/quetz_ipc_types.h:90-110 | the nested loops decide validity |
| `NativeRam.ValidIff` | include/quetz/quetz_ipc_types.h:90-110 | whoever wrote the table, it is valid if and only if it has at most two regions, each of whole pages up to 64 KiB in the 32-bit space and page-aligned inside the store, and no two share a guest or backing byte |
| `NativeRam.SharedBlock.ConfigureNativeRegions` | include/quetz/quetz_ipc_types.h:118-135 | configuring writes the placed table, or clears it when invalid |
| `NativeRam.AcceptedIsPlaced` | src/quetz_platform_contract.h:27-37 | every accepted list is placed validly |

## Left out

- Mailboxes and the interleaved cache bank are step machines on values: updates in place by real threads and aliasing are not modelled. The port's per-vCPU maps are one record per vCPU, and its object's lanes are a sequence of such records.
- `LaunchQueue.GpuDevice`, `KernelOp.KernelDevice` and `WindowDataCacheObject.WindowDataCache` group scalar fields in one record; the loops and the line array are as in the source.
- `CacheOwnership.WindowCacheBank.Issue`: joins the cache's half-step and the bank's record of it; the id is looked up before the cache advances, so a duplicate id, where the source throws after the half-step, leaves the cache as it was. A wrong answer length is refused before anything changes.
- `KernelEnding.OperationEndsIff`: answers come before the next tick, so that the clock at which the kernel computes is known in advance; `EveryScheduleEnds` is the form for every schedule. A kernel with no output stops the simulation and is not an ending.
- `CacheSwitch.ControlWriteExact`: when pushes retain lines and a dirty line that is not in memory is switched to write-through, only the direction from the condition is proved; whether the line can then be displaced and its bytes lost depends on the other registered lines of its set, the way locks and the round-robin counter.
- `CacheModes.PastCacheAccess`: it and the other accesses of `CacheModes` are for bytes inside one line; an access that crosses into the next line is two such chunks, and `CacheRefinement.RunRefines` and `CacheTransactions.BoundedTransactions` cover it.
- `KernelRange.RejectedIff`: a kernel with no output stops the simulation (`KernelRange.StopsIff`) and is neither rejected nor completed.
- In `KernelOp` the guest stores to memory between operations only; what a store during an operation's reads would change is not modelled.
- Memory ordering: shared words are sequentially consistent; acquire and release correctness and futex timing are not modelled.
- StandardMem is an environment that answers every request once, in any order and never inside a handler; the SST tunnel, links, clocks and statistics are not modelled beyond the counters a property names.
- In `DoorbellOrder` gates open one at a time in any order and some may be left for a later tick, which covers every order of the source's hash map; the object's `Process` goes through the vCPUs in order.
- Filters and region handlers are one function from commands to actions; their statistics are left out.
- Program counters of trace commands, detailed instruction counts and stall statistics.
- Blocking doorbells of the latency-mode device (the deferred response), register reads other than status polls, and lifecycle event files.
- Reset epochs, child process polling and the end-of-simulation test of the CPU tick.
- Floating-point rounding and the accuracy of the twiddle factors: the FFT is over an exact ring.
- String parsing of the native region list: only its numeric conditions are modelled; addresses of the shared block are unbounded.
- QEMU launching, shared-memory mapping, configuration, presets, instruction classifiers, fault decoders, sink and stream devices: easy or plumbing.
