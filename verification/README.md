# Verification of the AIOS kernel core

A Dafny 4.11 model of the parts of the kernel that keep state under an invariant, and proofs about it.
`dafny verify dfyconfig.toml` checks everything.

Each subsystem comes in the same layers. A `*_spec` module states what every call does as a function on
values. A `*_proofs` or `*_theorems` module proves what all runs of those calls keep and what follows from it.
A `*_effects` or `*_calls` module says when each call succeeds and what it leaves, in plain fields and arithmetic.
A module with classes performs the calls in place, with the linked lists, tables, rings and registers of the
kernel, and each of its methods is proved to end in exactly the state its function gives.

| subsystem | files |
|---|---|
| tensor memory manager | `linked_list`, `free_blocks`, `alignment`, `tensor_spec`, `tensor_proofs`, `tensor_theorems`, `tensor_mm`, `tensor_boot`, `tensor_limits` |
| shared memory windows and pressure arithmetic | `fabric_spec`, `fabric_proofs`, `fabric_effects`, `fabric_accounts`, `fabric_calls`, `fabric_witnesses`, `memory_fabric`, `pressure` |
| kernel heap | `heap_spec`, `heap_theorems`, `heap` |
| private address spaces and bootstrap processes | `paging`, `address_space`, `process_spec`, `process_theorems`, `process_journal`, `process_effects`, `process` |
| workload scheduler | `sched_spec`, `sched_proofs`, `sched_effects`, `sched_calls`, `sched_witnesses`, `scheduler` |
| autonomy control plane | `autonomy_spec`, `autonomy_effects`, `rings`, `autonomy` |
| pipeline registry with NodeBit gate | `pipeline_spec`, `capabilities`, `pipeline_proofs`, `pipeline_effects`, `node_pipeline` |
| ELF64 loader, Multiboot2 readers | `little_endian`, `elf_loader`, `multiboot` |
| Kernel Room hierarchy and source binding | `kernel_room`, `room_form`, `binding_spec`, `binding_fixtures`, `source_binding` |

Hardware is a state with CR3, rsp0 and IF; a configuration says for each write whether it takes effect, so the
fail-closed theorems hold for every pattern of lost writes. User-mode execution is a step that may change run
state and memory. Clocks, health reports, processor features and free-running inputs are parameters. Sections
under a lock are single steps; where a call has several of them, other threads run in between.

## Where the code does not do what its documentation or names suggest

- `ALIGN_UP` with a 32-bit alignment truncates to 32 bits, so a tensor of 4 GiB + n bytes is granted n bytes
  (`OversizedGranted`; the exact condition is the last clause of `AllocatedTensor`).
- Block descriptors of the tensor manager are never recycled. Once they are used up a free fails, and a tensor whose count
  reached zero stays allocated (`LastFreeOkIff`, `LastUnrefOkIff`); every initialised manager gets there
  (`DescriptorsRunOut`).
- `kmalloc` rounds a request within fifteen bytes of 2^64 to zero and serves it (`WrappedRequest`, `MallocReturns`).
  The free-byte statistic counts 32 bytes per extra block, and the block statistic counts all blocks (`Conserved`).
- After a missed real-time deadline `ai_sched_pick_next` moves on to the next level although real-time tasks may wait
  (`PickIsHighestIff`), and may leave the processor idle (`IdlesWhileWaiting`). A tick charges the time since scheduling
  again on every tick (`TwoTicksOvercount`, `OvercountReached`). A priority change of a task that was created but never
  submitted drops its whole queue (`SetPriorityKeepsIff`, `QueueDropReached`). Destroying a task twice counts it twice
  (`DestroyKeepsIff`, `DestroyTwice`), and a priority that cancels the policy weight makes a tick divide by zero
  (`ZeroWeightIff`, `ZeroWeightReached`).
- The comments of `calc_weight` and `update_vruntime` promise more processor time to higher priorities. Within a level
  the code does the opposite (`HigherPriorityFallsBehind`, `LowerPriorityLeads`).
- The automatic rollback of `autonomy_action_commit_next` can never fire (`CommitKeeps`).
- `kfree` catches a stale pointer for sure exactly while no owner of a payload could write the magic and free words of
  its old header since the heap last did (`Kfree`, `Forge`, `ReusedHeader`, `ShadowedHeader`).
- The ELF entry point is checked against the envelope of all segments, not against a segment (`GapEntryAccepted`). An
  accepted entry always lies in a segment exactly when the header table leaves no gap (`EntryHeldIff`).
- The count of attached windows of a domain is wrong when a window named the domain before it was opened
  (`StepKeepsExactIff`, `EarlyNameMiscounts`, `EarlyNameReached`). A creator that drops its reference twice leaves
  a window on a returned tensor (`SecondDropOrphans`, `SecondDropReached`).
- The source-binding fixtures fail for a valid hierarchy with a node 102 beside node 101 and for the last source
  generation (`FixturesPassIff`, `TwinFails`, `LastGenerationFails`). Initialisation also refuses every valid source that
  is not of the first boot generation (`Boot`).

## Model

| member | source | states |
|---|---|---|
| `TensorTheorems.RunKeepsInv` | kernel/mm/tensor_mm.c:580-719 | every run of alloc, free, ref and unref with any arguments keeps, per region, free blocks and live tensors disjoint with union exactly the initial pool, the free list address-sorted with no two adjacent blocks, and used/free/total and the lifetime-class counters equal to the interval sums |
| `TensorTheorems.AllocKeepsInv` | kernel/mm/tensor_mm.c:580-680 | one allocation, successful or not, keeps that invariant |
| `TensorTheorems.FreeKeepsInv` | kernel/mm/tensor_mm.c:682-719 | one free keeps it |
| `TensorTheorems.RefKeepsInv` | kernel/mm/tensor_mm.c:795-800 | taking a reference keeps it |
| `TensorTheorems.UnrefKeepsInv` | kernel/mm/tensor_mm.c:802-811 | dropping a reference, with or without the release, keeps it |
| `TensorTheorems.RangeStaysExcluded` | kernel/mm/tensor_mm.c:813-817 | in every sound state no free block and no live tensor meets the bootstrap user window, so the exclusion predicate stays true |
| `TensorTheorems.TensorsApart` | kernel/mm/tensor_mm.c:580-662 | two live tensors never share an address, even across regions |
| `TensorTheorems.TensorBounds` | kernel/mm/tensor_mm.c:604-612 | a live tensor lies wholly below or wholly above the user window, so the late hole guard cannot fire |
| `TensorTheorems.BestUpToSmallest` | kernel/mm/tensor_mm.c:354-385 | the search yields the first of the smallest feasible blocks and fails only when none is feasible |
| `TensorTheorems.BestFitComplete` | kernel/mm/tensor_mm.c:354-385 | the search succeeds if and only if some aligned run of the rounded size exists anywhere in the free addresses of the region, across block boundaries included |
| `TensorTheorems.AllocOkIff` | kernel/mm/tensor_mm.c:580-662 | an admissible request fails exactly when there is no aligned run or no descriptor is left for the prefix, and then nothing changed |
| `TensorTheorems.AllocatedTensor` | kernel/mm/tensor_mm.c:595-662 | the tensor has the next id and the given lifetime, is aligned and was free; it is at least the rounded request, and larger only by at most 64 bytes or for want of a descriptor, ending where free memory ends; it covers the request if and only if size + alignment - 1 stays below 2^32 |
| `TensorTheorems.AllocatedPlace` | kernel/mm/tensor_mm.c:354-385 | it lies in the first of the smallest free blocks that can hold the rounded request at an aligned address, less than one alignment unit above the start of that block |
| `TensorTheorems.AllocRefused` | kernel/mm/tensor_mm.c:580-602 | an inadmissible request changes nothing, with the reason for each kind |
| `TensorTheorems.PeakMeans` | kernel/mm/tensor_mm.c:664-680 | after every call the peak is the highest use so far |
| `TensorTheorems.ReferencesMean` | kernel/mm/tensor_mm.c:682-811 | ref adds one reference and free and unref take one away while others are left, with nothing else changed; unknown ids are refused |
| `TensorTheorems.OversizedTwin` | kernel/mm/tensor_mm.c:595-598 | a request 4 GiB larger is granted exactly the same small tensor: the rounding macro truncates to 32 bits |
| `TensorLimits.OversizedGranted` | kernel/mm/tensor_mm.c:595-598 | every initialised manager grants 4 GiB + 64 bytes with a tensor smaller than the request |
| `TensorLimits.LastFreeOkIff` | kernel/mm/tensor_mm.c:682-719 | freeing the last reference succeeds, and takes the tensor out of the table, exactly while a descriptor is left; otherwise nothing changes |
| `TensorLimits.LastUnrefOkIff` | kernel/mm/tensor_mm.c:802-811 | the same for unref, which otherwise leaves the tensor in the table with count zero |
| `TensorLimits.DescriptorsRunOut` | kernel/mm/tensor_mm.c:127-135 | from every initialised manager a run of allocations and frees reaches a live tensor that can no longer be returned |
| `Alignment.AlignUp32Truncates` | kernel/include/kernel/types.h:43 | the macro with a 32-bit alignment keeps only the low half |
| `Alignment.AlignUp32Exact` | kernel/include/kernel/types.h:43 | below 4 GiB it is the exact rounding |
| `Alignment.AlignUpLeast` | kernel/include/kernel/types.h:43 | the exact rounding is the least multiple not below its argument |
| `TensorTheorems.SameLiveSameFree` | kernel/mm/tensor_mm.c:332-351 | two sound states with the same live addresses have identical free lists |
| `TensorTheorems.HistoryIndependent` | kernel/mm/tensor_mm.c:332-351 | two runs from one state that end with the same live extents end with identical free lists |
| `TensorTheorems.AllocThenFree` | kernel/mm/tensor_mm.c:264-314 | a free right after an allocation restores the free lists and the tensor table exactly, as long as a descriptor is left |
| `TensorProofs.NextIdBound` | kernel/mm/tensor_mm.c:127-135 | block descriptors are never recycled, so identifiers never wrap |
| `TensorProofs.WasteExact` | kernel/mm/tensor_mm.c:362-376 | in a sound state the 32-bit rounding of a block base is exact, so the search and the split agree |
| `FreeBlocks.NormalUnique` | kernel/mm/tensor_mm.c:332-351 | two maximally coalesced lists over the same addresses are the same list |
| `FreeBlocks.RunInsideOneBlock` | kernel/mm/tensor_mm.c:354-385 | a run of free addresses never crosses a block boundary |
| `FreeBlocks.GiveBackNormal` | kernel/mm/tensor_mm.c:332-351 | insert then coalesce keeps the list sorted with no two adjacent blocks |
| `FreeBlocks.CoversGiveBack` | kernel/mm/tensor_mm.c:691-702 | freeing adds exactly the addresses of the tensor |
| `FreeBlocks.CoversCarve` | kernel/mm/tensor_mm.c:614-645 | the two splits of an allocation take away exactly the allocated addresses |
| `FreeBlocks.CarveNormal` | kernel/mm/tensor_mm.c:614-645 | and leave the list sorted with no two adjacent blocks |
| `FreeBlocks.TotalCarve` | kernel/mm/tensor_mm.c:614-645 | and shrink its byte total by exactly the allocated size |
| `TensorMM.SplitsAreCarve` | kernel/mm/tensor_mm.c:614-645 | splitting prefix and remainder in place, then unlinking, is that carving |
| `TensorMM.TensorManager.FreeListInsert` | kernel/mm/tensor_mm.c:147-167 | the doubly linked list of the region becomes the old one with the block inserted at its address; other lists and all links stay well formed |
| `TensorMM.TensorManager.FreeListRemove` | kernel/mm/tensor_mm.c:317-329 | the list becomes the old one without that block, whose own links are cleared |
| `TensorMM.TensorManager.Coalesce` | kernel/mm/tensor_mm.c:332-351 | on the linked list: merge with the next block, then with the previous one, exactly as the list function says |
| `TensorMM.TensorManager.FindBestFit` | kernel/mm/tensor_mm.c:354-385 | the pointer walk returns the block of the best-fit function, or null |
| `TensorMM.TensorManager.AllocAligned` | kernel/mm/tensor_mm.c:580-680 | the whole manager ends in the state the allocation function gives, with its status and tensor, and stays sound |
| `TensorMM.TensorManager.CutChosen` | kernel/mm/tensor_mm.c:600-645 | once a block is chosen the two late guards never fire |
| `TensorMM.TensorManager.FreeTensor` | kernel/mm/tensor_mm.c:682-719 | the manager ends in the state of the free function and stays sound |
| `TensorMM.TensorManager.RefTensor` | kernel/mm/tensor_mm.c:795-800 | the count of that tensor and nothing else changes |
| `TensorMM.TensorManager.UnrefTensor` | kernel/mm/tensor_mm.c:802-811 | the count drops, and at zero the tensor is returned |
| `TensorMM.TensorManager.AllocBlock` | kernel/mm/tensor_mm.c:127-135 | a fresh descriptor, or none when the static pool is used up |
| `TensorMM.TensorManager.FindIndex` | kernel/mm/tensor_mm.c:137-144 | the first record with the id |
| `TensorMM.TensorManager.Forget` | kernel/mm/tensor_mm.c:703-716 | swap-with-last deletion and the statistics of a free |
| `TensorBoot.InitManager` | kernel/mm/tensor_mm.c:422-545 | initialisation succeeds exactly when the first pool starts at or below the user window, and then the manager is sound over the pools without the window |
| `TensorBoot.BootInv` | kernel/mm/tensor_mm.c:422-545 | a manager that was just initialised satisfies the invariant every run keeps |
| `TensorBoot.PoolBlocksCover` | kernel/mm/tensor_mm.c:174-197 | the blocks of a pool cover exactly the pool minus the window |
| `TensorBoot.AddBlock` | kernel/mm/tensor_mm.c:174-197 | an empty piece adds nothing; otherwise the list and the totals grow by it |
| `TensorBoot.BoundaryProbe` | kernel/mm/tensor_mm.c:264-314 | the boundary self-test always passes and leaves no trace but spent descriptors |
| `TensorBoot.FreeListsExcluded` | kernel/mm/tensor_mm.c:199-213 | the walk over every list answers whether all free blocks avoid the window |
| `TensorBoot.TensorsExcluded` | kernel/mm/tensor_mm.c:215-231 | the same for the live tensors |
| `TensorBoot.HasBoundaries` | kernel/mm/tensor_mm.c:245-262 | answers whether the tensor list holds a block ending and one starting at the window |
| `TensorBoot.InvalidProbes` | kernel/mm/tensor_mm.c:264-314 | the invalid requests of the self-test are refused and change nothing |
| `LinkedList.Lists.InsertAfter` | kernel/mm/tensor_mm.c:147-167 | linking a cell behind another is insertion at the next position; every other list is unchanged |
| `LinkedList.Lists.PushFront` | kernel/mm/tensor_mm.c:147-167 | linking a cell at the head is insertion at position 0 |
| `LinkedList.Lists.Unlink` | kernel/mm/tensor_mm.c:317-329 | unlinking is removal at that position |
| `LinkedList.Lists.DropNext` | kernel/mm/tensor_mm.c:332-351 | the successor leaves the list |
| `FabricProofs.SharedTensorsStayLive` | kernel/mm/memory_fabric.c:483-621 | after every legal run the tensor of an active window is still allocated, its count is the unreleased creator reference plus the number of active windows naming it, and the writers of the window may read |
| `FabricProofs.Run` | kernel/mm/memory_fabric.c:483-621 | every legal run of create, drop, open, share, attach and release keeps that account for every tensor |
| `FabricProofs.StepKeeps` | kernel/mm/memory_fabric.c:483-621 | one call keeps it |
| `FabricProofs.FreshWorld` | kernel/mm/memory_fabric.c:346-377 | a fabric over a manager without tensors satisfies it, whatever domains initialisation opened |
| `FabricProofs.FailedShareChangesNothing` | kernel/mm/memory_fabric.c:483-545 | a share that fails leaves the whole fabric and every count as it was |
| `FabricProofs.RefThenUnref` | kernel/mm/memory_fabric.c:501-519 | a reference taken and given back leaves the manager exactly as it was |
| `FabricProofs.ShareKeeps` | kernel/mm/memory_fabric.c:483-545 | a share keeps the accounts |
| `FabricProofs.ReleaseKeeps` | kernel/mm/memory_fabric.c:597-621 | a release keeps them, whether or not it was the last reference |
| `FabricProofs.AttachKeeps` | kernel/mm/memory_fabric.c:547-578 | an attach keeps them |
| `FabricProofs.DropKeeps` | kernel/mm/tensor_mm.c:682-719 | the creator dropping its own reference once keeps them |
| `FabricEffects.SecondDropOrphans` | kernel/mm/tensor_mm.c:682-719 | why only once: a second drop by the creator frees a tensor that an active window still names |
| `FabricWitnesses.SecondDropReached` | kernel/mm/tensor_mm.c:682-719 | reached from every booted kernel: allocate, share, drop, drop |
| `FabricEffects.ShareFoundIff` | kernel/mm/memory_fabric.c:483-545 | the id a share hands out leads back to its window exactly when no active window in an earlier slot has that id |
| `FabricEffects.ShareGrants` | kernel/mm/memory_fabric.c:483-578 | right after such a share every open domain can attach exactly as named: owner and writers either way, readers for reading only, nobody else |
| `FabricEffects.RunGrants` | kernel/mm/memory_fabric.c:483-578 | after every legal run of fewer calls than there are ids that condition holds, so every share grants exactly what it says |
| `FabricCalls.ShareMeans` | kernel/mm/memory_fabric.c:483-545 | a share succeeds exactly for a live tensor, an open owner and a free slot; its window has the size of the tensor, the named owner and one user |
| `FabricCalls.AttachMeans` | kernel/mm/memory_fabric.c:547-578 | exact status of every attach; success raises the user count of that window alone, up to 65535 |
| `FabricCalls.ReleaseMeans` | kernel/mm/memory_fabric.c:597-652 | the window is closed for everybody and its one reference is dropped; an unknown id changes nothing |
| `FabricCalls.ReleasedIsClosed` | kernel/mm/memory_fabric.c:547-652 | nobody attaches to a released window, unless another one answers to its id |
| `FabricCalls.OpenMeans` | kernel/mm/memory_fabric.c:267-294 | a new domain gets the next number with nobody attached; refused exactly when all sixteen are taken |
| `FabricCalls.BitIs` | kernel/mm/memory_fabric.c:115-120 | the bit of each domain, 1 to 32, in a mask |
| `FabricAccounts.RunExact` | kernel/mm/memory_fabric.c:331-344 | over every legal run that opens no domain an active window already names, each domain carries exactly the number of active windows that name it |
| `FabricAccounts.StepKeepsExactIff` | kernel/mm/memory_fabric.c:331-344 | one call keeps those counts right if and only if it does not open a domain that an active window already names |
| `FabricAccounts.EarlyNameMiscounts` | kernel/mm/memory_fabric.c:455-464 | a window that names a domain before it exists makes the count of that domain wrong from its opening |
| `FabricWitnesses.EarlyNameReached` | kernel/mm/memory_fabric.c:455-545 | reached from every booted kernel: allocate, share with the next domain number among the readers, open that domain; the counts are right before the opening and wrong after |
| `FabricWitnesses.BootedInv` | kernel/mm/memory_fabric.c:296-377 | the booted fabric with its seeded domains has exact counts and satisfies the run invariant |
| `MemoryFabric.FabricTables.ShareWindow` | kernel/mm/memory_fabric.c:483-545 | tables and manager end as the share function says: reference first, given back on every failure |
| `MemoryFabric.FabricTables.ReleaseWindow` | kernel/mm/memory_fabric.c:597-621 | tables and manager end as the release function says |
| `MemoryFabric.FabricTables.AttachWindow` | kernel/mm/memory_fabric.c:547-578 | the map count of the window rises, or the same error and no change |
| `MemoryFabric.FabricTables.UpdateAccounting` | kernel/mm/memory_fabric.c:331-344 | every domain in the mask is counted up or down, saturating, and no other |
| `MemoryFabric.FabricTables.OpenDomain` | kernel/mm/memory_fabric.c:455-464 | a domain is appended, or the table is full |
| `MemoryFabric.FabricTables.FindSlot` | kernel/mm/memory_fabric.c:140-150 | the first inactive slot, one past the end, or none |
| `MemoryFabric.FabricTables.FindWindowIndex` | kernel/mm/memory_fabric.c:131-138 | the first active window with the id |
| `MemoryFabric.FabricTables.FindDomainIndex` | kernel/mm/memory_fabric.c:122-129 | the first active domain with the id |
| `Pressure.PopCount` | kernel/mm/memory_fabric.c:26-33 | the loop that clears lowest bits counts the members of the mask |
| `Pressure.MaskSets` | kernel/mm/memory_fabric.c:48-83 | the masks built with or and and-not are the union and the difference of the sets they stand for |
| `Pressure.SatAdd` | kernel/mm/memory_fabric.c:35-38 | the exact sum, capped at 2^64 - 1 |
| `Pressure.SatMul` | kernel/mm/memory_fabric.c:40-46 | the exact product, capped at 2^64 - 1 |
| `Pressure.Accumulate` | kernel/mm/memory_fabric.c:48-83 | one window adds its exact terms; the byte totals are the capped exact sums |
| `Pressure.ReadPressure` | kernel/mm/memory_fabric.c:403-427 | for any tables: weighted bytes are min(2^64-1, sum over shared active windows of size times participants), and the links, pairs, fan-out and budget are their exact sums |
| `Pressure.SumsBounded` | kernel/mm/memory_fabric.c:48-83 | the 32-bit counters cannot wrap over a full table |
| `Pressure.PairsFormula` | kernel/mm/memory_fabric.c:48-83 | pairs of writers are n(n-1)/2 |
| `Pressure.RatioQ10` | kernel/runtime/ai_pressure.c:36-58 | ten steps of long division give min(1024, floor(1024 n / d)), and 0 or 1024 at the zero cases, without a 64-bit wrap |
| `Pressure.Summarize` | kernel/runtime/ai_pressure.c:60-85 | the hottest plane is the first maximum, its concentration the exact ratio, and at least 341 when valid |
| `Pressure.ThirdAtLeast` | kernel/runtime/ai_pressure.c:60-85 | the largest of three scores is at least a third of their sum |
| `Pressure.MemoryScore` | kernel/runtime/ai_pressure.c:214-221 | the memory plane is the maximum of the two exact ratios |
| `HeapTheorems.RunKeepsInv` | kernel/mm/heap.c:72-197 | every legal run keeps the chain tiling the 2 MiB pool with aligned payloads and no two free neighbours, used = sum of used sizes and free = sum of free sizes + 32 per extra block |
| `HeapTheorems.FreshInv` | kernel/mm/heap.c:97-112 | initialisation establishes it |
| `HeapTheorems.Conserved` | kernel/mm/heap.c:199-209 | used + free is constant, and free equals the free bytes if and only if there is a single block |
| `HeapTheorems.PayloadsApart` | kernel/mm/heap.c:114-169 | payloads never overlap each other or a header, stay in the pool and are 16-byte aligned |
| `HeapTheorems.MallocFails` | kernel/mm/heap.c:114-169 | null exactly for size 0 or when no free block holds the rounded size, and then nothing changed |
| `HeapTheorems.MallocReturns` | kernel/mm/heap.c:114-169 | an aligned block that was free, at the first place that fits; cut down to the rounded request exactly when more than 48 bytes would be left over and given whole otherwise; it covers the request if and only if the size does not exceed 2^64 - 16 |
| `HeapTheorems.WrappedRequest` | kernel/mm/heap.c:67-69 | a request within fifteen bytes of 2^64 is rounded to nothing and served with an empty block |
| `HeapTheorems.MallocAdds` | kernel/mm/heap.c:114-169 | exactly one live block is added, and it was not live |
| `HeapTheorems.FreeDrops` | kernel/mm/heap.c:171-197 | exactly the block of the pointer leaves, and one more free is counted |
| `HeapTheorems.MallocThenFree` | kernel/mm/heap.c:72-91 | freeing what was just allocated restores the chain exactly |
| `HeapTheorems.SameLiveSameChain` | kernel/mm/heap.c:72-91 | two sound heaps with the same live blocks have the same chain |
| `HeapTheorems.HistoryIndependent` | kernel/mm/heap.c:72-91 | runs that end with the same live blocks end with the same chain |
| `HeapTheorems.AllFreedIsFresh` | kernel/mm/heap.c:72-91 | freeing everything leaves one block that fills the pool and zero used bytes |
| `HeapTheorems.DoubleFreePanics` | kernel/mm/heap.c:171-197 | a freed pointer is not live: freeing it again panics |
| `HeapSpec.MallocKeepsInv` | kernel/mm/heap.c:114-169 | one kmalloc keeps the invariant |
| `HeapSpec.FreeKeepsInv` | kernel/mm/heap.c:171-197 | one kfree keeps it |
| `HeapSpec.ChargedIs` | kernel/mm/heap.c:157-165 | within the pool no counter wraps |
| `KernelHeap.Arena.Init` | kernel/mm/heap.c:97-112 | the arena becomes the fresh heap |
| `KernelHeap.Arena.Kmalloc` | kernel/mm/heap.c:114-169 | on the intrusive header chain: the heap and the pointer are those of the allocation function; headers off the chain stay safe exactly unless an owner can now write their tag, and become safe when a new header lies over it |
| `KernelHeap.Arena.FindFit` | kernel/mm/heap.c:124-137 | the walk finds the first block that fits, and the corruption panic never fires |
| `KernelHeap.Arena.SplitBlock` | kernel/mm/heap.c:143-158 | a header written behind the kept bytes is the split of the chain |
| `KernelHeap.Arena.Coalesce` | kernel/mm/heap.c:72-91 | forward merge, then backward merge, as the list function says |
| `KernelHeap.Arena.Kfree` | kernel/mm/heap.c:171-197 | panics exactly when the header before the pointer does not say used; a live block is released as the free function says; a block that is not live is never released, and panics for sure while its header is on the chain or no owner could write its tag (magic and free) since the heap last wrote it |
| `KernelHeap.Arena.Forge` | kernel/mm/heap.c:171-197 | and only then: for every other stale pointer some contents of the tag make the call run on |
| `KernelHeap.Arena.Overwrite` | kernel/mm/heap.c:114-169 | the owner of a tag may write anything there: no header of the chain lies over it, and no stated property of the heap changes |
| `KernelHeap.ReusedHeader` | kernel/mm/heap.c:114-197 | a concrete run: two blocks freed, a third of 256 bytes covers the tag of the second header, and a second free of the second pointer is not caught, even after the third was returned |
| `KernelHeap.ShadowedHeader` | kernel/mm/heap.c:114-197 | the same with a third block of 48 bytes, whose successor puts its prev pointer over that tag: the second free panics, also after the third was returned |
| `KernelHeap.PointerSaysNothing` | kernel/mm/heap.c:34-40 | a 16-byte aligned pointer lying over a tag never reads as the used magic |
| `KernelHeap.ShadowNotLive` | kernel/mm/heap.c:34-40 | the tag under a header of the chain lies in no payload |
| `KernelHeap.FreedNotLive` | kernel/mm/heap.c:72-91 | a free hands out no tag, and the headers that leave the chain have tags without an owner |
| `KernelHeap.Arena.WhereLive` | kernel/mm/heap.c:171-197 | on the chain a header says used exactly when its block is live; a safe one off the chain never does |
| `Paging.SameOutside` | kernel/mm/address_space.c:164-217 | outside the user window a private slot translates every address exactly as the boot tables do |
| `Paging.WindowMapped` | kernel/mm/address_space.c:164-217 | inside it the slot reaches its own backing, writable from user mode |
| `Paging.WindowsDisjoint` | kernel/mm/address_space.c:164-217 | no address of one window shares a byte with the other |
| `Paging.WindowIndex` | kernel/mm/address_space.c:164-217 | the window is exactly what hangs below entries 0, 0 and 32 |
| `Paging.EntryDecodes` | kernel/mm/address_space.c:164-217 | an aligned base or-ed with flag bits decodes to both again |
| `Paging.BuildKeepsInv` | kernel/mm/address_space.c:164-217 | building keeps the table invariant, touches no backing, and is ready exactly on success |
| `Paging.PolicyDoes` | kernel/mm/address_space.c:311-347 | a slot that got its policy is zeroed and has the matching leaf, non-executable when asked and enforceable |
| `Paging.PolicySparesOther` | kernel/mm/address_space.c:449-489 | prepare and seal of one slot change nothing of the other slot or of boot |
| `AddressSpace.SlotTables.Build` | kernel/mm/address_space.c:164-217 | the page-table writes produce the tables of the build function |
| `AddressSpace.SlotTables.SetPolicy` | kernel/mm/address_space.c:311-347 | the leaf and backing writes produce those of the policy function |
| `ProcessTheorems.Run` | kernel/core/process.c:265-734 | every legal run of init, prepare, cancel, activate, finish, trap capture, interrupt and user steps, under every pattern of lost register writes, keeps the ownership and journal invariants or ends halted |
| `ProcessTheorems.OwnershipMeans` | kernel/core/process.c:418-618 | between calls either one active descriptor is current with its slot, CR3, rsp0 and interrupts off, or CR3 and rsp0 are the boot baselines and no guard is held |
| `ProcessTheorems.JournalMeans` | kernel/core/process.c:190-228 | after every run event i has sequence i+1, is valid, moves ownership only to or from the kernel, and reads back when idle |
| `ProcessJournal.CommittedStays` | kernel/core/process.c:190-228 | an event committed at any moment of a run is the same event at the same place at the end of the run, still valid and still readable |
| `ProcessJournal.RunAppends` | kernel/core/process.c:190-228 | over every run the journal only grows at its end |
| `ProcessJournal.StepAppends` | kernel/core/process.c:190-228 | no call, initialisation included, drops or rewrites a committed event |
| `ProcessJournal.ActivateAppends` | kernel/core/process.c:418-502 | activation only appends, whether it succeeds, fails closed or leaves the guard live |
| `ProcessJournal.FinishAppends` | kernel/core/process.c:504-618 | finish only appends, on every path |
| `ProcessTheorems.NeverBroken` | kernel/core/process.c:116-174 | every prefix of the journal spells (acquire capture? release)* with at most one open run |
| `ProcessTheorems.ReleaseCites` | kernel/core/process.c:574-607 | a release cites the capture right before it in the same run, or none |
| `ProcessTheorems.ActivateKeeps` | kernel/core/process.c:418-502 | activation with a fresh guard owns the machine, or fails closed: guard live with interrupts off, or everything as before |
| `ProcessTheorems.FinishKeeps` | kernel/core/process.c:504-618 | finish releases machine and guard together with CR3, rsp0 and IF restored, or keeps the guard with interrupts off; nothing is ever dropped |
| `ProcessTheorems.TrapKeeps` | kernel/core/process.c:620-734 | capture keeps the invariants and never overflows: its place was reserved at activation |
| `ProcessTheorems.PrepareKeeps` | kernel/core/process.c:365-397 | prepare keeps them |
| `ProcessTheorems.CancelKeeps` | kernel/core/process.c:399-416 | cancel keeps them |
| `ProcessTheorems.InitKeeps` | kernel/core/process.c:265-359 | initialisation establishes the baseline and leaves nothing owned |
| `ProcessTheorems.StaysValid` | kernel/core/process.c:116-174 | a committed event stays valid as generations grow |
| `ProcessTheorems.ActivateSucceeds` | kernel/core/process.c:418-502 | with truthful hardware a prepared process with a sound stack and journal room is always activated |
| `ProcessEffects.ActivateOkIff` | kernel/core/process.c:418-502 | and exactly then: prepared, nothing current, room for three events, a sound entry stack other than the boot stack |
| `ProcessEffects.ActivateMeans` | kernel/core/process.c:418-502 | a success, on any hardware, leaves the process current on its own tables and entry stack with interrupts off and a fresh run state, the old machine in the guard, and exactly this acquisition in the journal |
| `ProcessEffects.PrepareOkIff` | kernel/core/process.c:365-397 | prepare succeeds exactly for a real slot of an initialised kernel with nothing current or switched, a generation left and address spaces to be had; otherwise no process changes |
| `ProcessEffects.PrepareMeans` | kernel/core/process.c:365-397 | then every address of the window translates to the zeroed backing of the slot, executable as asked for; the process is prepared for the next generation with a fresh run state and no trap |
| `ProcessEffects.PrepareSparesOther` | kernel/core/process.c:365-397 | and the other slot keeps its memory, policy and process |
| `ProcessEffects.CancelOkIff` | kernel/core/process.c:399-416 | exact success of cancel, and that the preparation is gone even when the seal failed |
| `ProcessEffects.CancelWindow` | kernel/core/process.c:399-416 | after a cancel the window is zeroed, and not executable where that can be enforced |
| `ProcessEffects.CaptureOkIff` | kernel/core/process.c:620-734 | capture succeeds exactly for the first genuine breakpoint of the current process, field by field; the trap and the one new event then hold the very frame, and a refusal changes nothing |
| `ProcessEffects.TrapReadBack` | kernel/core/process.c:736-763 | the snapshot read back is the captured frame |
| `ProcessEffects.InitOkIff` | kernel/core/process.c:265-359 | initialisation succeeds exactly with the scaffold, CR3 and rsp0, the address spaces and two ordered, aligned entry stacks; a first success leaves two prepared processes, an empty journal and the boot baselines |
| `ProcessTheorems.FinishSucceeds` | kernel/core/process.c:504-618 | and an owner with an undamaged stack always finishes |
| `ProcessEffects.FinishOkIff` | kernel/core/process.c:504-618 | and only such an owner does |
| `ProcessEffects.FinishMeans` | kernel/core/process.c:504-618 | a success, on any hardware, restores CR3, rsp0 and IF, ends the preparation, and journals exactly this release with the frame captured in the run, or none; it never succeeds on a damaged stack |
| `ProcessTheorems.FinishSeals` | kernel/mm/address_space.c:449-489 | after a successful finish the slot is zeroed, and non-executable whenever the processor enforces it |
| `ProcessTheorems.CancelSeals` | kernel/core/process.c:399-416 | the same after a cancel |
| `ProcessTheorems.SpacesKeepMeaning` | kernel/mm/address_space.c:164-217 | in every reachable state each slot means what boot means outside the window and its own backing inside |
| `ProcessTheorems.SpaceActivateOutcome` | kernel/mm/address_space.c:349-398 | the CR3 switch took effect, or was undone, or the guard is live with interrupts off |
| `ProcessTheorems.SpaceRestoreOutcome` | kernel/mm/address_space.c:400-447 | restore succeeds exactly when the guard is clear, with CR3 and IF back; otherwise interrupts stay off |
| `ProcessTheorems.StackPublishOutcome` | kernel/core/user_mode.c:162-199 | rsp0 is the new stack top under a live guard, or nothing changed, or the guard stays live |
| `ProcessTheorems.StackRestoreOutcome` | kernel/core/user_mode.c:201-223 | success means rsp0 is the previous one and the guard is gone |
| `ProcessTheorems.BootWorld` | kernel/core/process.c:265-359 | a machine that has just booted satisfies the invariant |
| `BootstrapProcess.Kernel.ActivateProcess` | kernel/core/process.c:418-502 | the kernel ends in the state, guard and status of the activation function |
| `BootstrapProcess.Kernel.FinishProcess` | kernel/core/process.c:504-618 | the same for finish |
| `BootstrapProcess.Kernel.CaptureCurrentTrap` | kernel/core/process.c:620-734 | the same for trap capture |
| `BootstrapProcess.Kernel.PrepareProcess` | kernel/core/process.c:365-397 | the same for prepare |
| `BootstrapProcess.Kernel.CancelProcess` | kernel/core/process.c:399-416 | the same for cancel |
| `BootstrapProcess.Kernel.InitProcesses` | kernel/core/process.c:265-359 | the same for initialisation |
| `BootstrapProcess.Kernel.ReadEvent` | kernel/core/process.c:765-789 | returns the event of the lookup function, or its error |
| `BootstrapProcess.Kernel.GetTrap` | kernel/core/process.c:736-763 | returns the recorded trap of the run, or none |
| `BootstrapProcess.Kernel.AppendEvent` | kernel/core/process.c:190-228 | the journal grows by the event with the next sequence number, or the overflow is counted |
| `BootstrapProcess.Kernel.CheckRoom` | kernel/core/process.c:176-188 | tells whether that many events still fit |
| `BootstrapProcess.Kernel.ActivateSpace` | kernel/mm/address_space.c:349-398 | CR3, slot and guard end as the switch function says |
| `BootstrapProcess.Kernel.RestoreCr3` | kernel/mm/address_space.c:400-419 | CR3 is put back and the interrupt part deferred |
| `BootstrapProcess.Kernel.RestoreIrq` | kernel/mm/address_space.c:421-438 | the deferred interrupt part is completed or stays pending |
| `BootstrapProcess.Kernel.RestoreSpace` | kernel/mm/address_space.c:440-447 | both parts in order |
| `BootstrapProcess.Kernel.PublishRsp0` | kernel/core/user_mode.c:162-199 | rsp0 and its guard end as the publish function says |
| `BootstrapProcess.Kernel.RestoreRsp0` | kernel/core/user_mode.c:201-223 | rsp0 and its guard end as the restore function says |
| `BootstrapProcess.Kernel.PrepareSlot` | kernel/mm/address_space.c:311-347 | spaces and returned handle are those of the prepare function |
| `BootstrapProcess.Kernel.SealSlot` | kernel/mm/address_space.c:449-489 | spaces are those of the seal function |
| `SchedProofs.RunKeepsInv` | kernel/sched/ai_sched.c:75-425 | every run that keeps the call protocol keeps each queue ordered by virtual runtime and arrival, holding exactly the handed-over ready tasks of its policy with the right size, the running task unique and on no queue, and the counters adding up |
| `SchedProofs.RunMeans` | kernel/sched/ai_sched.c:75-425 | spelled out for any two waiting tasks: distinct, ready, ordered, first come first among ties; active + completed + failed = total |
| `SchedProofs.FreshInv` | kernel/sched/ai_sched.c:151-183 | initialisation establishes it |
| `SchedProofs.EnqueueKeeps` | kernel/sched/ai_sched.c:75-101 | insertion keeps every queue ordered |
| `SchedProofs.DequeueKeeps` | kernel/sched/ai_sched.c:104-120 | removal keeps every queue ordered |
| `SchedProofs.CreateKeeps` | kernel/sched/ai_sched.c:225-256 | create keeps the invariant: the task is ready but on no queue |
| `SchedProofs.DestroyKeeps` | kernel/sched/ai_sched.c:258-273 | destroy keeps it |
| `SchedWitnesses.DestroyKeepsIff` | kernel/sched/ai_sched.c:258-273 | exactly when the task is running, suspended or waiting in its queue |
| `SchedWitnesses.DestroyTwice` | kernel/sched/ai_sched.c:258-273 | create, submit, destroy, destroy: the number of active tasks goes below zero, where the source wraps |
| `SchedProofs.SubmitKeeps` | kernel/sched/ai_sched.c:275-290 | submit of an unqueued task keeps it |
| `SchedProofs.SuspendKeeps` | kernel/sched/ai_sched.c:292-304 | suspend keeps it |
| `SchedWitnesses.SuspendKeepsIff` | kernel/sched/ai_sched.c:292-304 | exactly when the task is running, suspended or waiting in its queue |
| `SchedProofs.ResumeKeeps` | kernel/sched/ai_sched.c:306-312 | resume keeps it |
| `SchedProofs.SetPriorityMeans` | kernel/sched/ai_sched.c:314-325 | only that field of that task changes, and who waits at which level stays the same |
| `SchedProofs.SetPriorityKeepsIff` | kernel/sched/ai_sched.c:314-325 | the invariant survives a priority change exactly when the task is not a created, never submitted one: that call drops every task waiting at its level |
| `SchedWitnesses.QueueDropReached` | kernel/sched/ai_sched.c:314-325 | reached from initialisation: one task waits, another is created, and a change of the priority of the second empties the queue of the first |
| `SchedProofs.PickNextMeans` | kernel/sched/ai_sched.c:337-373 | the head of the first level that has one runs; a real-time head past its deadline fails and the search goes on at the next level |
| `SchedProofs.PickIsHighestIff` | kernel/sched/ai_sched.c:337-373 | in every sound state without a running task, the head of the highest waiting level is picked (and nothing only when nothing waits) unless exactly a real-time head missed its deadline with more real-time tasks behind it |
| `SchedWitnesses.IdlesWhileWaiting` | kernel/sched/ai_sched.c:337-373 | reached from initialisation by ten legal calls: the next pick leaves the processor idle while a real-time task waits |
| `SchedProofs.HeadLeads` | kernel/sched/ai_sched.c:75-101 | the head is ahead of everything that waits at its level |
| `SchedProofs.TickMeans` | kernel/sched/ai_sched.c:375-408 | after a tick the remaining running task has time left in its slice and nothing waits above it |
| `SchedCalls.TickCharges` | kernel/sched/ai_sched.c:375-408 | in all branches: the running task is charged the time since it was scheduled, divided by its weight for the virtual runtime; it leaves the processor exactly when its slice is used up or a higher level waits, and only the second counts as a preemption; no other record changes |
| `SchedCalls.WeightIs` | kernel/sched/ai_sched.c:123-137 | the weights 1, 4, 16, 32, 64 and 128 of the policies, plus the priority, on 64-bit words |
| `SchedCalls.PickMeans` | kernel/sched/ai_sched.c:337-373 | a late real-time head fails; then the head of the first waiting level runs from now on, the real-time level being passed over after a failure; the queues, records and counters are otherwise as before |
| `SchedCalls.YieldWaits` | kernel/sched/ai_sched.c:410-416 | the running task waits again, uncharged, behind exactly the tasks that do not have a larger virtual runtime |
| `SchedCalls.PreemptWaits` | kernel/sched/ai_sched.c:418-425 | the same for the named task if it is the running one, and counted; otherwise nothing changes |
| `SchedCalls.ResumeWaits` | kernel/sched/ai_sched.c:306-312 | exactly a suspended task waits again, with the virtual runtime it had |
| `SchedCalls.CreateMeans` | kernel/sched/ai_sched.c:225-256 | the next id, the parameters as given, never charged, on no queue; refused exactly when the pool is full |
| `SchedCalls.PriorityRequeues` | kernel/sched/ai_sched.c:314-325 | a waiting task whose priority changes falls behind every task it ties with |
| `SchedCalls.CallsRefused` | kernel/sched/ai_sched.c:258-325 | an unknown id, or the submission of a running or finished task, is refused and changes nothing |
| `SchedProofs.TwoTicksOvercount` | kernel/sched/ai_sched.c:380-392 | a tick charges the time since the task was scheduled: after two ticks the total is right only if the first interval was empty |
| `SchedWitnesses.OvercountReached` | kernel/sched/ai_sched.c:380-392 | reached from initialisation: ticks at 1 and 2 charge 3 |
| `SchedProofs.YieldKeeps` | kernel/sched/ai_sched.c:410-416 | yield keeps the invariant and leaves no running task |
| `SchedProofs.PreemptKeeps` | kernel/sched/ai_sched.c:418-425 | preempt keeps it |
| `SchedEffects.EnqueueMeans` | kernel/sched/ai_sched.c:75-101 | an insertion goes behind exactly the waiting tasks whose virtual runtime is not larger; nobody else moves |
| `SchedEffects.SubmitMeans` | kernel/sched/ai_sched.c:275-290 | a submitted task starts level with the head, behind all ties and ahead of everything that ran longer; the head stays the head and no other task changes |
| `SchedEffects.DetachMeans` | kernel/sched/ai_sched.c:258-304 | suspend and destroy take exactly that task out of its queue and touch no other record |
| `SchedEffects.HeavierRunsFirst` | kernel/sched/ai_sched.c:123-145 | charged the same time from the same virtual runtime, the larger weight is never behind and strictly ahead after long enough |
| `SchedEffects.HigherPriorityFallsBehind` | kernel/sched/ai_sched.c:123-145 | within a level the higher priority (smaller number) is never ahead of the lower one after equal time, and strictly behind after long enough: the opposite of what the comments promise |
| `SchedWitnesses.LowerPriorityLeads` | kernel/sched/ai_sched.c:123-145 | reached from initialisation: two real-time tasks of priority 0 and 100 ran equally long, and the one of priority 100 leads the queue |
| `SchedWitnesses.ZeroWeightIff` | kernel/sched/ai_sched.c:123-145 | the weight a tick divides by is zero exactly for the priority that cancels the weight of the policy |
| `SchedWitnesses.ZeroWeightReached` | kernel/sched/ai_sched.c:123-145 | such a task can be created, submitted and picked |
| `Scheduler.RunQueues.EnqueueTask` | kernel/sched/ai_sched.c:75-101 | the pointer writes insert the task where the order function says |
| `Scheduler.RunQueues.DequeueTask` | kernel/sched/ai_sched.c:104-120 | the pointer writes remove it |
| `Scheduler.RunQueues.CreateTask` | kernel/sched/ai_sched.c:225-256 | the queues end as the create function says |
| `Scheduler.RunQueues.DestroyTask` | kernel/sched/ai_sched.c:258-273 | the same for destroy |
| `Scheduler.RunQueues.SubmitTask` | kernel/sched/ai_sched.c:275-290 | the same for submit |
| `Scheduler.RunQueues.SuspendTask` | kernel/sched/ai_sched.c:292-304 | the same for suspend |
| `Scheduler.RunQueues.ResumeTask` | kernel/sched/ai_sched.c:306-312 | the same for resume |
| `Scheduler.RunQueues.SetPriorityOf` | kernel/sched/ai_sched.c:314-325 | the same for a priority change |
| `Scheduler.RunQueues.GetPriorityOf` | kernel/sched/ai_sched.c:327-335 | the priority of the task, or an error |
| `Scheduler.RunQueues.PickNextTask` | kernel/sched/ai_sched.c:337-373 | the same for pick_next |
| `Scheduler.RunQueues.TickTask` | kernel/sched/ai_sched.c:375-408 | the same for tick |
| `Scheduler.RunQueues.AnyAbove` | kernel/sched/ai_sched.c:394-407 | tells whether some level above the running task has a waiting task |
| `Scheduler.RunQueues.YieldTask` | kernel/sched/ai_sched.c:410-416 | the same for yield |
| `Scheduler.RunQueues.PreemptTask` | kernel/sched/ai_sched.c:418-425 | the same for preempt |
| `Scheduler.RunQueues.FindTask` | kernel/sched/ai_sched.c:65-72 | the first task with the id |
| `AutonomySpec.RunMeans` | kernel/runtime/autonomy.c:264-428 | after every run from initialisation: proposed = committed + rejected + queue depth, rollbacks <= committed, actions left in approval order, and a pending commit exists exactly when the rollback context does and names the same task |
| `AutonomySpec.RunKeepsInv` | kernel/runtime/autonomy.c:264-428 | every legal run interleaved with scheduler calls keeps those books |
| `AutonomySpec.RollbackRestores` | kernel/runtime/autonomy.c:405-428 | a rollback after a commit gives the task the exact priority it had, whatever other calls came between, and moves no task to another queue |
| `AutonomySpec.CommitApplies` | kernel/runtime/autonomy.c:175-189 | a commit moves the priority of its task by the delta, kept within 0..255, and changes nothing else about any task or queue membership |
| `AutonomySpec.ContextStays` | kernel/runtime/autonomy.c:175-189 | between commit and rollback the context stays |
| `AutonomySpec.ProposeKeeps` | kernel/runtime/autonomy.c:264-333 | propose keeps the books on every refusal and admission |
| `AutonomyEffects.ProposeOkIff` | kernel/runtime/autonomy.c:264-333 | an action is approved exactly when the queue has room, risk, target and delta are in bounds, the kernel is healthy enough for the risk, safe mode allows it and observation mode is off; everything else changes only the books |
| `AutonomyEffects.RefusalReason` | kernel/runtime/autonomy.c:264-333 | the status and the logged event of every refusal |
| `AutonomyEffects.CommitMeans` | kernel/runtime/autonomy.c:350-403 | the oldest action moves the priority of its task by the delta, cut off at 0 and 255, and keeps the old one; an unknown task is refused; no other task changes |
| `AutonomyEffects.RollbackMeans` | kernel/runtime/autonomy.c:405-428 | works exactly when there is a commit to undo and its task is known; otherwise nothing changes |
| `AutonomyEffects.ObservationApprovesNothing` | kernel/runtime/autonomy.c:146-156 | over every run that does not leave observation mode nothing is approved |
| `AutonomyEffects.ObservationTouchesNoTask` | kernel/runtime/autonomy.c:146-156 | and from a quiet state the scheduler ends exactly as the direct calls of the run alone would leave it |
| `AutonomyEffects.ObservationFromInit` | kernel/runtime/autonomy.c:146-156 | both from initialisation on |
| `AutonomySpec.CommitKeeps` | kernel/runtime/autonomy.c:350-403 | commit keeps them, and its automatic rollback can never fire: the score does not see priorities |
| `AutonomySpec.RollbackKeeps` | kernel/runtime/autonomy.c:405-428 | rollback keeps them |
| `Autonomy.ControlPlane.ProposeAction` | kernel/runtime/autonomy.c:264-333 | the plane ends as the propose function says, with its event logged |
| `Autonomy.ControlPlane.CommitNext` | kernel/runtime/autonomy.c:350-403 | the same for commit |
| `Autonomy.ControlPlane.RollbackLast` | kernel/runtime/autonomy.c:405-428 | the same for rollback |
| `Autonomy.ControlPlane.ApplyAction` | kernel/runtime/autonomy.c:175-200 | the same for applying an action |
| `Rings.Queue.Push` | kernel/runtime/autonomy.c:322-328 | the ring contents grow by the element at the tail |
| `Rings.Queue.Pop` | kernel/runtime/autonomy.c:353-356 | the oldest element leaves the ring |
| `Rings.Log.Add` | kernel/runtime/autonomy.c:121-136 | the log keeps the latest entries, oldest overwritten first |
| `Rings.Log.Latest` | kernel/runtime/autonomy.c:430-438 | returns the last entry, or none |
| `PipelineProofs.Run` | kernel/runtime/node_pipeline.c:106-309 | every interleaving of the critical sections of any number of threads keeps gate, registry and thread invariants |
| `PipelineProofs.RunMeans` | kernel/runtime/node_pipeline.c:106-309 | and the books: ready exactly with stages, live executions at most the global total, evaluations = permits + denies per node, health blocks among the denies, and no act without a permit |
| `PipelineProofs.FreshInv` | kernel/runtime/node_pipeline.c:92-104 | initialisation establishes them for any number of threads |
| `PipelineProofs.CreditOnlyCopied` | kernel/runtime/node_pipeline.c:182-277 | after every interleaving a concluding thread raises the execution count of exactly the instance whose stages it copied, even if slots were reused, and of none if that instance is gone; the total counts it either way |
| `PipelineProofs.CreditsOtherIff` | kernel/runtime/node_pipeline.c:252-262 | with no bound on creations: a concluding thread credits an instance it did not copy only when their births are a multiple of 2^32 apart, after more than 2^32 creations; exactly when the first live slot under the copied id holds that instance |
| `PipelineProofs.ExecutionOkIff` | kernel/runtime/node_pipeline.c:182-277 | an execution succeeds exactly for a node registered with bit 11 and a pipeline of its own whose stages all name present accelerators, and then that instance alone counts one more |
| `Capabilities.EvaluateIff` | kernel/runtime/nodebit.c:179-232 | a request is permitted exactly when every bit of it is a bit of the mask and it is not one of bits 4, 5, 8 or 9 asked by a health-gated node in an unhealthy kernel; that cause alone is reported as a health block |
| `Capabilities.ValidIff` | kernel/runtime/nodebit.c:53-55 | a mask can be registered exactly when all its bits are among the twelve capabilities |
| `Capabilities.PipelineIff` | kernel/runtime/node_pipeline.c:68-80 | pipelines need bit 11 of the mask, whatever the health of the kernel |
| `PipelineEffects.PermitRestsOnMask` | kernel/runtime/nodebit.c:179-232 | after any interleaving a permit rests on the mask last registered or updated for the node |
| `PipelineEffects.MaskIsLast` | kernel/runtime/nodebit.c:118-177 | the gate always holds that mask |
| `PipelineEffects.EvaluateMeans` | kernel/runtime/nodebit.c:179-232 | and exactly the books of the node count the evaluation, its outcome and its cause |
| `PipelineEffects.RegisterMeans` | kernel/runtime/nodebit.c:118-156 | exact status; the first free slot then holds the node with that mask and health flag and empty books |
| `PipelineEffects.UpdateMeans` | kernel/runtime/nodebit.c:158-177 | exact status; only the mask of that node changes |
| `PipelineEffects.CreateMeans` | kernel/runtime/node_pipeline.c:106-140 | an open pipeline without stages, owned by the node, under the next id; refused exactly when full |
| `PipelineEffects.AddStageMeans` | kernel/runtime/node_pipeline.c:142-180 | only the owner, at most eight stages, at the end; exact status of every refusal |
| `PipelineEffects.DestroyMeans` | kernel/runtime/node_pipeline.c:279-309 | only the owner; only that slot is freed |
| `PipelineEffects.CopyOutMeans` | kernel/runtime/node_pipeline.c:201-221 | exact status of the copying section |
| `PipelineEffects.ConcludeMeans` | kernel/runtime/node_pipeline.c:236-262 | what the concluding section writes to the pipeline and to the totals |
| `PipelineEffects.ActMeans` | kernel/runtime/node_pipeline.c:106-309 | a permitted thread runs the section of its own call for its own node |
| `PipelineEffects.OnlyOwnerChanges` | kernel/runtime/node_pipeline.c:142-309 | in any interleaving a live pipeline changes its stages or loses its slot only in a section of a permitted thread of its owner |
| `PipelineProofs.TotalsBalance` | kernel/runtime/nodebit.c:310-334 | the summary balances like each node and counts every permit ever given |
| `PipelineProofs.StepKeeps` | kernel/runtime/node_pipeline.c:106-309 | one critical section keeps the invariants |
| `PipelineProofs.RecordKeeps` | kernel/runtime/nodebit.c:63-93 | a recorded decision keeps the node books balanced |
| `PipelineProofs.RegisterKeeps` | kernel/runtime/nodebit.c:118-156 | registration keeps them and takes no entry away |
| `NodePipeline.GateTable.Evaluate` | kernel/runtime/nodebit.c:179-232 | the verdict is that of the decision function and is recorded for a known node |
| `NodePipeline.GateTable.RecordDecision` | kernel/runtime/nodebit.c:63-93 | exactly one node book changes, by one decision |
| `NodePipeline.GateTable.RegisterNode` | kernel/runtime/nodebit.c:118-156 | the gate ends as the register function says |
| `NodePipeline.GateTable.UpdateNodeCaps` | kernel/runtime/nodebit.c:158-177 | the gate ends as the update function says |
| `NodePipeline.GateTable.Summary` | kernel/runtime/nodebit.c:310-334 | the active count and the four totals are the sums over the active entries, for any table |
| `NodePipeline.PipeTable.CreateLocked` | kernel/runtime/node_pipeline.c:106-140 | the registry ends as the create section says |
| `NodePipeline.PipeTable.AddStageLocked` | kernel/runtime/node_pipeline.c:142-180 | the same for adding a stage |
| `NodePipeline.PipeTable.CopyStages` | kernel/runtime/node_pipeline.c:201-221 | the same for the copying section, with the stages copied |
| `NodePipeline.PipeTable.ConcludeLocked` | kernel/runtime/node_pipeline.c:236-262 | the same for the concluding section |
| `NodePipeline.PipeTable.DestroyLocked` | kernel/runtime/node_pipeline.c:279-309 | the same for destroy |
| `NodePipeline.PipeTable.Execute` | kernel/runtime/node_pipeline.c:182-277 | gate, registry and status end as the uninterrupted execution function says |
| `NodePipeline.PipeTable.GateCheck` | kernel/runtime/node_pipeline.c:68-80 | an explicit permit or a counted refusal, with the decision on record at the gate |
| `ElfLoader.Load` | kernel/core/elf_loader.c:35-132 | status and result are those of the declarative outcome; on every outcome, rejection midway included, memory is the fold of the processed headers and nothing outside the region changes |
| `ElfLoader.LoadOkIff` | kernel/core/elf_loader.c:35-132 | an image loads exactly when its header is sound, every loadable segment fits image and region in unbounded arithmetic, and the entry point is enclosed by loaded segments; exactly when the status is PERM |
| `ElfLoader.HeaderIff` | kernel/core/elf_loader.c:10-65 | the header test, byte by byte |
| `ElfLoader.JudgeIff` | kernel/core/elf_loader.c:21-85 | the word tests of a segment never overflow: they say what unbounded arithmetic says |
| `ElfLoader.LastCoverDecides` | kernel/core/elf_loader.c:87-94 | each covered byte is the file byte or zero given by the last segment covering it |
| `ElfLoader.UncoveredUntouched` | kernel/core/elf_loader.c:87-94 | an uncovered byte keeps its value |
| `ElfLoader.OutsideUntouched` | kernel/core/elf_loader.c:26-33 | no address outside the region changes |
| `ElfLoader.Envelope` | kernel/core/elf_loader.c:96-101 | the envelope contains every loaded segment |
| `ElfLoader.EnvelopeTight` | kernel/core/elf_loader.c:96-101 | and some loaded segment starts at its low end and one stops at its high end |
| `ElfLoader.EntryHeldIff` | kernel/core/elf_loader.c:107-115 | for any headers the loader processes: every accepted entry point lies in a loaded segment if and only if every loaded segment ends at the end of the envelope or inside a loaded segment |
| `ElfLoader.GapEntryAccepted` | kernel/core/elf_loader.c:107-115 | a 176-byte image that the loader accepts into the user window although no segment holds its entry point |
| `ElfLoader.EntryIsEnvelope` | kernel/core/elf_loader.c:107-115 | for processed headers the accepted entry points are exactly the addresses of the envelope |
| `ElfLoader.LoadSegments` | kernel/core/elf_loader.c:67-105 | the header loop stops at the first bad header with its error and has written exactly the ones before |
| `ElfLoader.CheckHeader` | kernel/core/elf_loader.c:46-65 | accepts exactly the headers whose table lies in the image |
| `ElfLoader.WriteSegment` | kernel/core/elf_loader.c:87-94 | file bytes, then zeroes up to the memory size, and nothing else |
| `Multiboot.HandoffValid` | kernel/core/main.c:230-280 | accepts exactly the blocks with a sound header and one complete tag list: linked by size, closed by an end tag that fills the block |
| `Multiboot.TagListUnique` | kernel/core/main.c:253-277 | there is at most one such list, so the positions are determined |
| `Multiboot.PayloadInside` | kernel/core/main.c:253-277 | every tag before the end tag lies with its payload inside the block |
| `Multiboot.WalkTags` | kernel/core/acpi.c:231-254 | the ACPI walk visits a prefix of the validated positions, stops only at a new-style tag or the end tag, terminates, and picks the first new-style tag or else the first old-style one |
| `Multiboot.AcpiInit` | kernel/core/acpi.c:221-259 | the chosen payload lies between the header and the end tag |
| `Multiboot.BootTags` | kernel/core/main.c:115-124 | a rejected handoff is never walked, so the boot path needs no condition of its own |
| `Multiboot.AlignsAgreeIff` | kernel/core/acpi.c:253 | the 32-bit rounding of the walk equals the 64-bit one of the validator exactly below the wrap; past it the walk would not move |
| `KernelRoom.SnapshotValid` | kernel/core/kernel_room_management.c:228-268 | accepts exactly the forests: unique ids per level, every parent present, one generation, exact child counts, zero tails |
| `RoomForm.ForestIff` | kernel/core/kernel_room_management.c:107-268 | the accepted rooms are exactly the records written from a generation, a sample number and two levels of distinct ids with their parents: every other field is determined |
| `KernelRoom.CellRecordsValid` | kernel/core/kernel_room_management.c:107-148 | accepts exactly sound cells with unique ids and exact child counts |
| `KernelRoom.NodeRecordsValid` | kernel/core/kernel_room_management.c:150-187 | accepts exactly sound nodes with unique ids and present parents |
| `KernelRoom.NodeBitRecordsValid` | kernel/core/kernel_room_management.c:189-226 | accepts exactly sound NodeBits with unique ids and present parents |
| `KernelRoom.TailZero` | kernel/core/kernel_room_management.c:90-105 | true exactly when every unused record is zero |
| `KernelRoom.FindCell` | kernel/core/kernel_room_management.c:66-76 | a cell with the id, or none exists |
| `KernelRoom.FindNode` | kernel/core/kernel_room_management.c:78-88 | a node with the id, or none exists |
| `KernelRoom.ReachesOneCell` | kernel/core/kernel_room_management.c:189-226 | in a forest each NodeBit reaches exactly one node and one cell, all at the common generation |
| `KernelRoom.BoundCountsSum` | kernel/core/kernel_room_management.c:107-148 | the child counts of the cells add up to the number of nodes |
| `KernelRoom.BootRoomIsForest` | kernel/core/kernel_room_management.c:270-348 | the boot hierarchy is a forest |
| `BindingSpec.AcceptedIff` | kernel/core/kernel_room_source_binding.c:121-281 | a snapshot is accepted exactly when it is the single canonical binding of one node to the source, with nonzero generation and sequence, nothing else set and no step back from the previous one |
| `BindingSpec.ExactlyOneBinding` | kernel/core/kernel_room_source_binding.c:121-281 | an accepted snapshot holds exactly one binding although two would fit |
| `BindingSpec.RecordIff` | kernel/core/kernel_room_source_binding.c:184-243 | an accepted record is the binding of one of the nodes, field by field |
| `BindingSpec.SecondRepeats` | kernel/core/kernel_room_source_binding.c:245-257 | two acceptable records always name the same source, so the second is a duplicate |
| `BindingSpec.RecordReason` | kernel/core/kernel_room_source_binding.c:184-243 | the reason for which a record is refused, for every record |
| `BindingSpec.RollbackIff` | kernel/core/kernel_room_source_binding.c:260-281 | an acceptable snapshot is refused against a previous one exactly when its generation went back or the source was known in a later generation |
| `BindingSpec.SourceForm` | kernel/runtime/slm_orchestrator.c:32-51 | a valid source is fixed in every field but instance, generation and sample number |
| `SourceBinding.Validate` | kernel/core/kernel_room_source_binding.c:121-281 | the reason is that of the verdict function, for every combination of missing inputs |
| `SourceBinding.CheckRecords` | kernel/core/kernel_room_source_binding.c:184-258 | the record loop with its duplicate scan gives the first failing reason |
| `SourceBinding.CheckPrevious` | kernel/core/kernel_room_source_binding.c:260-278 | tells exactly whether the snapshot steps back |
| `SourceBinding.Seed` | kernel/core/kernel_room_source_binding.c:305-363 | for a valid hierarchy and source it succeeds exactly when node 101 exists, and writes the canonical binding of it |
| `BindingFixtures.SeedAccepted` | kernel/core/kernel_room_source_binding.c:305-363 | the seed is accepted for every valid hierarchy with node 101 and every valid source |
| `BindingFixtures.FixturesPassIff` | kernel/core/kernel_room_source_binding.c:365-509 | the boot self-check passes exactly when no node 102 shares the cell of node 101 and the source generation is not the last 64-bit value |
| `BindingFixtures.TwinFails` | kernel/core/kernel_room_source_binding.c:365-509 | a valid hierarchy for which it fails |
| `BindingFixtures.LastGenerationFails` | kernel/core/kernel_room_source_binding.c:365-509 | the boot hierarchy with a valid source of generation 2^64 - 1, for which it fails |
| `SourceBinding.NegativeFixturesPass` | kernel/core/kernel_room_source_binding.c:365-509 | the sequence of fixtures decides exactly that |
| `SourceBinding.CopiedSourceReadPass` | kernel/core/kernel_room_source_binding.c:511-528 | passes exactly for the first boot instance and generation, with two sample numbers left |
| `SourceBinding.Boot` | kernel/core/kernel_room_source_binding.c:530-556 | up to the assignment of the registry, initialisation succeeds exactly for a forest with node 101 and no node 102 in the same cell, and the boot source; then the seed is accepted |

## Left out

- Console, serial, VGA, shell, dumps and markers; drivers, PCI, USB, storage, timers, the accelerator layer, CPUID.
- Assembly entry stubs, kernel threads and stack canaries beyond the entry-stack check.
- `model_free`, `kv_cache_*`, `dma_*`, pin flags, tensor shapes and the products of `tensor_total_size`.
- The SLM orchestrator, driver-model hints, `compute_profile` and how it chooses the number and budgets of the default domains.
- Syscall wrappers, Python tools and manifests; boot self-tests other than the tensor boundary probe, the process ownership
  check and the source-binding fixtures.
- Labels, names, timestamps, latencies and wait-time telemetry of tasks, pipelines, windows and actions.
- Locks: a locked section is one step. The tensor reference taken by a window share and the table update that follows
  are one step.
- Monitoring counters that are only ever incremented (evaluation and execution counts, proposals, switches, queue sizes)
  are unbounded naturals; their word-size wrap is not modelled. Identifiers, byte counts, generations that are compared,
  vruntime and charged time wrap or are proved not to.
- The bytes of heap payloads and of tensors.
- Page-table entries are decoded records; `EntryDecodes` relates base and flag bits. Accessed and dirty bits, caches and
  the TLB are not modelled.
- Schema, reason and outcome constants of journal events that every event of a kind shares are part of its kind.
- ACPI tables behind the chosen RSDP tag, the BIOS scan, and the walk of a block the validator rejected, which the boot
  path never starts.
- Reading the Kernel Room and source-binding registries back with increasing sample numbers, and the checks that follow the
  assignment of the source-binding registry.
- KernelRoom.TailZero: compares whole records with the zero record instead of bytes; the structures have no padding.
- KernelHeap.Arena.Kfree: covers pointers that kmalloc once returned; what a header read before a foreign pointer would
  contain, and what the call does with a header that is not one (`Wild`), is not modelled.
- MemoryFabric.FabricTables.OpenDomain: leaves out role, priority, flags and the in-flight limit of a domain, which no
  modelled operation reads.
- FabricEffects.ShareGrants: for a share whose id leads back to its window (`ShareFoundIff` says exactly when).
- FabricEffects.RunGrants: for runs shorter than the 32-bit range of window ids, after which ids repeat.
- Scheduler.RunQueues.DequeueTask: for a task on its queue. What the pointer writes do to a queue the task is not on is in
  the specification function (the queue is dropped, `SetPriorityKeepsIff`), not in the class.
- Scheduler.RunQueues.SubmitTask: for a task that is not queued; queueing it twice would make the list cyclic.
- Scheduler.RunQueues.SuspendTask: for running, suspended or queued tasks, as the call protocol demands.
- Scheduler.RunQueues.DestroyTask: for running, suspended or queued tasks, as the call protocol demands.
- Scheduler.RunQueues.SetPriorityOf: not for a created, never submitted task, where the invariant is lost (`SetPriorityKeepsIff`).
- Scheduler.RunQueues.PickNextTask: when nothing runs, as the call protocol demands.
- HeapTheorems.RunKeepsInv: a panic ends the run, so runs free live pointers only.
- PipelineProofs.CreditOnlyCopied: for fewer than 2^32 creations, after which ids repeat (`CreditsOtherIff`).
- SchedProofs.RunKeepsInv: for runs that keep the call protocol (submit only unqueued tasks, suspend or destroy only
  running or submitted ones, pick only when nothing runs, tick only with a nonzero weight, since the code divides by it).
- FabricProofs.SharedTensorsStayLive: for runs in which a creator drops its own reference at most once; it fails without
  that (`SecondDropOrphans`).
- AutonomySpec.RollbackRestores: between commit and rollback no other commit or rollback happens and the task was not
  left created-but-unsubmitted.
- AutonomySpec.CommitKeeps: nothing else changes the scheduler statistics between the two samples of one commit.
- ElfLoader.Load: the region is mapped, ends below 2^64 and does not overlap the image; the image is a value that is read
  only in bounds.
- NodePipeline.GateTable.Summary: work-time totals, work counts and evaluation latencies are not summed.
- NodePipeline.PipeTable.Execute: omits the work-time observation that a finished pipeline adds to its node.
- The accelerator check of a stage when it is added.
- ProcessTheorems.Run: process handles come from prepare, activation starts with a fresh guard, clearing IF always takes
  effect, and a state whose guard stays live is final.
