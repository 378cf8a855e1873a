# Pantry: a model of its tracer, synthesiser and decoder

Pantry drives and traces Mali GPUs. Its driver (`driver/`) synthesises command
streams in a pool of memory shared with the GPU and submits them as atoms. Its
tracer (`panwrap/`) sits in front of libc, shadows the kernel's memory map in two
intrusive lists, and prints what passes. Its decoder (`decoder/`) walks a job
chain through that map and prints each job.

This project models the parts whose properties depend on one another and proves
what they promise:

* `List`, `ShadowMap`, `Matching`, `ShadowRuns`, `Translation`: the intrusive
  lists as a heap of nodes, the tracer's two lists in it, what every run of
  allocations, mmaps and munmaps leaves in them, and address translation.
* `Memory`, `Layouts`, `Pool`, `JobImages`, `Synthesiser`, `Contents`, `Atoms`:
  memory as an array of bytes, packed records, the bump allocator and the pool it
  hands out, the functions that write job chains into the pool, the chains they
  leave word by word, and the atom queue.
* `Decoder`, `Walker`, `Fetching`, `Updates`, `LiveJobs`, `AttributeLists`,
  `Submits`, `JobTraces`, `RoundTrip`, `AtomTraces`, `DriverMaps`, `Batches`,
  `Sessions`: what the decoder prints and changes as functions on memory, the
  decoder itself as loops and recursion over the byte array, what its updates do
  and how far they reach, what it makes of any job, attribute list and batch, the
  theorems that decoding gives back what was synthesised, the map the driver's calls
  leave in the tracer, and driver and decoder taking turns on one pool and one map
  for as long as the pool lasts.
* `Chains`, `Plans`, `ChainWalks`, `ClearChains`, `Overlap`: chains of any shape,
  when the walk over them ends and what it visits.
* `FrozenClock`, `Threads`, `Calls`: timestamps without the time spent in the
  tracer, over every interleaving of threads in the intercepted calls, and what each
  kind of call does.
* `Hexdump`, `HexdumpReader`, `Flags`, `FlagsReader`: the printers and the readers
  that undo them.
* `Bits`, `Options`: words, masks and missing values.

Conventions. The process has 32-bit pointers, `size_t`, `off_t` and `long`: the
driver casts pointers to and from `uint32_t`. Its memory is an `array<u8>` of 2^32
bytes and a CPU pointer is an index into it. `Pool.Heap` maps each block of the
pool to its bytes; `Pool.Holds` says that memory holds exactly those bytes and is
zero in the rest of the pool, so a statement about `blocks` is a frame condition
on the whole pool, and `outside` says the same of the memory around it. Answers of
the kernel (addresses, file descriptors, clock readings) are parameters. Float
values are opaque words; `Decoder.Jitter` is the sum of a vertex word and a random
number. The tracer's lookup is stated for 64-bit `size_t` and pointers as well.

Where code and documentation disagree the code is followed. Four properties turn
out to hold only under a condition, which is stated: the bounds check of
`fetch_mapped_gpu` (`Translation.FetchSound`, with a wrapping size in
`FetchOverflows`), its completeness next to an adjacent mapping
(`Translation.FetchComplete`, `NeighbourHides`), the decoder's in-place update
of vertices (`Updates.UpdatesStayInside`, with the memory of
`Updates.NarrowOverruns`), and the end of the walk over an acyclic
chain (`ChainWalks.WalkEndsIff`, with a chain that rewrites its own link in
`Overlap.OverlapNeverEnds`). The vertex job of a synthesised chain
is itself taken for sabotaged exactly when its shader descriptor was allocated in
the megabyte at 0x5AB00000 (`RoundTrip.VertexTraced`). The test for a replay atom
is true of every soft job (`Decoder.SoftJobsReplay`).

`dafny verify dfyconfig.toml` checks the project.

## Model

| member | source | states |
|---|---|---|
| List.ListInit | include/list.h:39-43 | a fresh head or a loose entry becomes a ring of one; every other list is unchanged |
| List.LinkBetween | include/list.h:45-54 | the four stores put an entry between two neighbours of one ring, also when the neighbours are the same node |
| List.ListAdd | include/list.h:56-60 | prepends to the abstract sequence of the head's list; all rings stay mirror images and every other list keeps its sequence |
| List.UnlinkBetween | include/list.h:62-67 | the two stores take out what lies between two neighbours of one ring |
| List.ListDel | include/list.h:69-74 | without knowing the list: removes just that entry from just its list, also the only one, and leaves it linked to itself |
| List.ListDelSelfLinked | include/list.h:69-74 | deleting an entry that is linked to itself leaves it so, and every other list as it was |
| List.ListSelfLink | include/list.h:39-43 | a node whose list is not needed any more becomes a ring of its own, whatever its fields held |
| List.ListIsEmpty | include/list.h:76-80 | true exactly for a head whose abstract sequence is empty |
| List.AddThenDelete | include/list.h:56-74 | deleting what was just added restores every list |
| List.DeletedSeparate | include/list.h:62-74 | deletion keeps all lists disjoint and duplicate-free, with the entry as a list of its own |
| List.DeletedRings | include/list.h:62-74 | after the stores every next-chain and prev-chain again mirror each other and return to their head |
| ShadowMap.Tracer.constructor | panwrap/panwrap-syscall.c:125-127 | both lists start empty and disjoint |
| ShadowMap.Tracer.FindMappedMem | panwrap/panwrap-syscall.c:216-225 | the newest mapping at exactly this CPU address, NULL if there is none |
| ShadowMap.Tracer.FindMappedMemContaining | panwrap/panwrap-syscall.c:228-237 | NULL exactly if no mapping has the address between its CPU address and CPU address plus length, both included and without wrapping; otherwise the newest one that has |
| ShadowMap.CpuLookup | panwrap/panwrap-syscall.c:228-237 | the same of the abstract sequence: the first mapping found spans the address in plain inequalities, none before it does, and one is found if any does |
| ShadowMap.Tracer.FindGpuMappedMem | panwrap/panwrap-syscall.c:240-249 | the same on the GPU side |
| ShadowMap.Tracer.FetchMappedGpu | panwrap/panwrap-syscall.c:252-267 | the list walk computes the translation `Fetch` of the abstract sequence of mappings |
| ShadowMap.Tracer.PostMemAlloc | panwrap/panwrap-syscall.c:655-671 | the allocation is pending, newest first; the mappings are untouched |
| ShadowMap.Tracer.PostMemCommit | panwrap/panwrap-syscall.c:685-696 | the same for MEM_COMMIT, never same-VA |
| ShadowMap.Tracer.FindPending | panwrap/panwrap-syscall.c:1035-1041 | the search of the mmap wrapper finds the newest allocation at the offset |
| ShadowMap.Tracer.MmapWrap | panwrap/panwrap-syscall.c:1013-1063 | on the traced file: at most one allocation, the newest at the offset, leaves `allocations`, and one mapping joins `mmaps`; on other files nothing |
| ShadowMap.Tracer.Munmap | panwrap/panwrap-syscall.c:1086-1115 | removes the newest mapping at the address and nothing else |
| ShadowMap.Tracer.OpenWrap | panwrap/panwrap-syscall.c:884-910 | a descriptor is remembered exactly if the call succeeded on the GPU's device file; a line is logged for that file and for others under /dev/ |
| ShadowMap.Tracer.Close | panwrap/panwrap-syscall.c:935-948 | forgets the descriptor only if it is the traced one |
| ShadowMap.ForgetLists | panwrap/panwrap-syscall.c:1040-1043 | deleting and freeing one entry drops it from its own sequence only; both lists stay disjoint and well typed |
| ShadowRuns.PendingRefines | panwrap/panwrap-syscall.c:1035-1045 | over any run: `allocations` is exactly the allocation events that no mmap has consumed, newest first |
| ShadowRuns.LiveRefines | panwrap/panwrap-syscall.c:1035-1112 | over any run: `mmaps` is exactly the mmaps that no munmap has removed, each with the GPU address of the allocation it consumed |
| ShadowRuns.AllocationsConserved | panwrap/panwrap-syscall.c:654-696 | allocations recorded always equal allocations pending plus allocations consumed |
| ShadowRuns.MappingsConserved | panwrap/panwrap-syscall.c:1054-1112 | mappings recorded always equal mappings live plus mappings removed |
| ShadowRuns.MmapConsumesEarlier | panwrap/panwrap-syscall.c:1035-1045 | an mmap consumes an earlier allocation whose GPU address is its offset |
| ShadowRuns.MmapConsumesOnce | panwrap/panwrap-syscall.c:1035-1045 | no allocation is consumed twice, and a consumed one is pending no more |
| ShadowRuns.MmapConsumesNewest | panwrap/panwrap-syscall.c:1035-1045 | any newer allocation at the offset had been consumed before; an unmatched mmap had none left |
| ShadowRuns.MunmapRemovesOne | panwrap/panwrap-syscall.c:1097-1112 | a munmap removes the mapping of one earlier mmap that returned its address, once |
| ShadowRuns.MunmapRemovesNewest | panwrap/panwrap-syscall.c:1097-1112 | and that is the newest one still live |
| ShadowRuns.RunTracer | panwrap/panwrap-syscall.c:654-1115 | the two lists in memory, driven through any sequence of these calls, hold exactly what these theorems say of the run |
| Matching.MatchingRun | panwrap/panwrap-syscall.c:1035-1112 | the history of a list as a log of additions and removals: what stands in it, what was removed by whom, and that nothing is lost or removed twice |
| Translation.FetchSound | panwrap/panwrap-syscall.c:240-267 | an answer is base plus offset of a live mapping that contains the start; it contains the whole range exactly when offset plus size does not wrap 64 bits, which 32-bit sizes never do |
| Translation.FetchOverflows | panwrap/panwrap-syscall.c:258-262 | a size that wraps passes the bounds check |
| Translation.FetchComplete | panwrap/panwrap-syscall.c:240-267 | a nonempty range in the only mapping that holds its start is found exactly when no newer mapping ends where it begins |
| Translation.NeighbourHides | panwrap/panwrap-syscall.c:240-249 | two adjacent pages, the lower mapped last: the upper one's first byte is not found |
| Translation.FetchInside | panwrap/panwrap-syscall.c:240-267 | with a gap around a mapping every range in it is found, wherever it stands in the list |
| Translation.FetchApart | panwrap/panwrap-syscall.c:240-267 | without overlap every range that starts strictly inside a mapping is found; one that starts with it is if no newer mapping ends there |
| Translation.SameVaMapping | panwrap/panwrap-syscall.c:665-667 | MEM_ALLOC with SAME_VA and its mmap record a mapping of addresses to themselves, leaving other allocations pending |
| Translation.OffsetMapping | panwrap/panwrap-syscall.c:1047-1048 | without SAME_VA the GPU side keeps the offset |
| Translation.UnmatchedMapping | panwrap/panwrap-syscall.c:1035-1059 | an mmap at whose offset nothing is pending consumes nothing and is recorded without a GPU address |
| Bits.AndLow | decoder/trace.c:127 | masking low bits is the remainder by a power of two |
| Bits.AndHigh | decoder/trace.c:121 | masking with the complement rounds down to a multiple of it |
| Layouts.HeaderRoundTrip | include/jobs.h:19-41 | the packed job header, bit fields and link included, is decoded as it was encoded |
| Layouts.VertexTilerRoundTrip | include/chai-notes.h:63-84 | the vertex/tiler payload is decoded as it was encoded |
| Layouts.MfbdRoundTrip | include/chai-notes.h:133-148 | the framebuffer descriptor is decoded as it was encoded |
| Layouts.SmallRecordsRoundTrip | include/chai-notes.h:23-26 | so are the SET_VALUE, fragment, attribute-buffer and replay records |
| Layouts.TagRoundTrip | include/chai-notes.h:33-44 | a tag in the low bits of an aligned pointer and the pointer are both recovered by the mask |
| Layouts.TileCoordRoundTrip | include/chai-notes.h:46-54 | X and Y below 0x1000 are read back exactly, whatever flag lies outside both fields |
| Pool.GallocIsNext | driver/memory.c:21-27 | below the top of the address space a block is the first 1 KiB unit above the bump position, which moves to its end; when the sum passes the top the position wraps |
| Pool.BlocksDisjoint | driver/memory.c:21-27 | any sequence of calls: blocks aligned, rising, pairwise disjoint, and the final position at most one unit per call plus the sizes above the first |
| Pool.Capacity | driver/memory.c:7-27 | requests that fit with one unit of slack each never wrap and end inside the 4 MiB pool |
| Pool.Cbma.constructor | driver/memory.c:11-19 | the pool starts as zeros without blocks, and memory around it is unchanged |
| Pool.Cbma.Galloc | driver/memory.c:21-27 | a fresh zero block disjoint from all earlier ones, which keep their bytes |
| Pool.Cbma.Store | driver/synthesise.c:33-51 | a store inside a block changes that block only; the rest of the pool, its zeros and memory around it stay |
| Pool.HoldsRewritten | decoder/trace.c:249-257 | memory in which one block has been rewritten holds the pool with that block's new bytes |
| Pool.Cbma.Adopt | decoder/trace.c:249-257 | the allocator goes on with blocks whose bytes the decoder has rewritten |
| Pool.Memcpy | driver/synthesise.c:172 | exactly the destination range changes |
| Atoms.QueueRun | driver/shim.c:140-161 | over any interleaving of submissions and flushes: batches followed by the queue are the submissions in order, each once; fewer than 16 are queued; batches hold 1 to 16 |
| Atoms.FlushedRun | driver/shim.c:145-153 | after a final flush everything submitted has been sent |
| Atoms.SentWhen | driver/shim.c:140-161 | at any point of any run: a submission sends a batch exactly if it is the 16th, 32nd and so on since the last flush, and then of 16; a flush sends what is left over, and nothing if there is none; queue and batches change in no other way |
| Atoms.QueuedCount | driver/shim.c:140-161 | what is queued after any run is the number of submissions since the last flush, modulo 16 |
| Atoms.ShortBatchFlushed | driver/shim.c:145-161 | every batch was sent by one call of the run, and a batch shorter than 16 by a flush |
| Atoms.UnflushedRun | driver/shim.c:155-161 | without a flush there are as many batches as 16 goes into the submissions, all of 16, and the queue holds the remainder |
| Atoms.JobQueue.SubmitJob | driver/shim.c:155-161 | the array and counter refine the abstract queue, with the flush at 16 |
| Atoms.JobQueue.FlushJobQueue | driver/shim.c:145-153 | sends what is queued as one batch and empties the queue, nothing if it is empty |
| Atoms.NumbersRun | driver/synthesise.c:384-400 | atom numbers of up to 255 submissions are positive, increasing and distinct in their byte |
| Atoms.DependenciesRun | driver/synthesise.c:104-142 | in a run starting with a vertex/tiler chain every DATA dependency names the submission just before |
| Atoms.DependenciesUnambiguous | driver/synthesise.c:408-442 | a dependency's number identifies one atom, an earlier one, so dependencies form no cycle |
| Atoms.AtomsConsistent | driver/synthesise.c:118-442 | an atom names its one external resource exactly if its requirements ask for any and exactly if it waits for another; priority is low exactly for soft jobs; the fragment bit is the fragment chain's |
| Atoms.BatchesKeepOrder | driver/shim.c:145-161 | an earlier submission is never in a later batch, so dependencies respect flushes |
| Atoms.SyncCovers | driver/shim.c:117-127 | the cache request starts on a page, ends with the caller's range and pairs GPU with CPU addresses, exactly when the page starts at or above CPU address 0 |
| JobImages.SlotsPlaced | driver/synthesise.c:203-224 | in whatever order the initialiser's calls are evaluated, the seven blocks are seven distinct consecutive units |
| JobImages.SlotsAllocated | driver/synthesise.c:203-224 | and the pool has exactly those seven zero blocks more |
| JobImages.SlotHeapStore | driver/synthesise.c:226-336 | a store through one of the payload's pointers changes that block only |
| JobImages.ChainHeapSet | driver/synthesise.c:363-385 | rewriting the SET_VALUE header leaves the rest of the chain as it was |
| JobImages.StoreNext | driver/synthesise.c:363-377 | linking through either union member sets the whole 64-bit link and no other field |
| Synthesiser.Synth.SetValueHelper | driver/synthesise.c:33-51 | one new block with header and payload; nothing else changes |
| Synthesiser.Synth.MakeMfbd | driver/synthesise.c:53-97 | one new block whose every field is as intended, zero where nothing is stored, and its address with the tags |
| Synthesiser.Synth.ImportShader | driver/synthesise.c:147-161 | the shader lands in the pages mapped for it and the GPU address carries its flags; the pool is unchanged |
| Synthesiser.Synth.UploadVertices | driver/synthesise.c:163-178 | the vertices and their tagged attribute buffer are two new blocks |
| Synthesiser.Synth.GallocSlots | driver/synthesise.c:203-224 | the seven calls, in any order, give seven fresh zero blocks |
| Synthesiser.Synth.VertexTilerHelper | driver/synthesise.c:180-349 | packet, seven blocks and write buffer with all their bytes, for any order of evaluation; earlier blocks unchanged |
| Contents.VertexImage | driver/synthesise.c:180-349 | the vertex job in memory, word by word at the offsets of the structs: header with type, number, dependency and link, first words, and an address array whose entries are the zero buffer, the attribute buffer, the tagged descriptor and pointers that lead to the floats, the shader record, the metadata, the write-buffer pair and the others |
| Contents.TilerImage | driver/synthesise.c:180-349 | the tiler job in memory likewise: the mode or-ed into its third word, the zero buffer, the descriptor and the block of entry 10 in place, every other address a trap, and its own blocks filled although nothing points to them |
| Contents.SetImage | driver/synthesise.c:33-51 | the SET_VALUE job in memory |
| Contents.StartImage | driver/synthesise.c:53-178 | the attribute buffer and all seventy words of the descriptor in memory |
| Contents.DescriptorIs | driver/synthesise.c:53-97 | those seventy words, for tiler and fragment descriptors |
| Contents.FragmentImage | driver/synthesise.c:99-125 | the fragment job and its descriptor in memory |
| Contents.ReplayImage | driver/synthesise.c:405-426 | the replay record in memory |
| Contents.WriteBufferIs | driver/synthesise.c:286-289 | the write-buffer word is type byte, address and tag side by side |
| Contents.ModeWordIs | driver/synthesise.c:196 | the mode is or-ed into 0x14030000, and added to it if below 0x10000 |
| Contents.ShaderWordIs | driver/synthesise.c:160 | a shader address carries 5 if it is a vertex shader's and 9 if a fragment shader's |
| Contents.ExclusiveIs | driver/synthesise.c:127 | the framebuffer of an atom is marked in its lowest bit |
| Synthesiser.Synth.LinkChain | driver/synthesise.c:363-385 | exactly links, indices and dependencies of the three headers change |
| Synthesiser.Synth.JobChainVertexTiler | driver/synthesise.c:351-403 | the pool afterwards holds the chain `IsChain` describes and what it held before; one atom is submitted with the next number |
| Synthesiser.Synth.JobChainFragment | driver/synthesise.c:99-143 | two new blocks, job and descriptor, and one atom that waits for the last |
| Synthesiser.Synth.JobChainReplay | driver/synthesise.c:405-443 | one new block, the replay record, and one atom that waits for the last |
| Fetching.PoolFetch | panwrap/panwrap-syscall.c:240-267 | every range that starts inside the same-VA pool translates to itself, as long as no mapping overlaps the pool |
| Fetching.SameVaIdentity | driver/memory.c:11-27 | end to end: after the allocation and the mmap of `init_cbma`, every block that fits is found at its own address |
| Fetching.JitterFrame | decoder/trace.c:249-257 | the in-place updates change no byte outside the span of the vertices |
| Fetching.VerticesJittered | decoder/trace.c:249-257 | every float of every vertex becomes the sum of what it was and its own random number, in order; no other byte changes; three numbers are drawn for each vertex |
| Fetching.DrawsCounted | decoder/trace.c:249-257 | three for each vertex also when the vertices overlap |
| Updates.UpdatesStayInside | decoder/trace.c:223-257 | tracing an attribute with mapped data survives and changes nothing outside its `total_size` bytes, in every memory and map and whatever is drawn, exactly when an element has room for three floats |
| Updates.WideInside | decoder/trace.c:223-257 | with room for three floats it does, wherever the data is |
| Updates.NarrowOverruns | decoder/trace.c:238-257 | for every smaller element size that is not 0, a memory in which the decoder survives and disturbs a byte behind the data |
| Updates.ZeroDies | decoder/trace.c:238 | and for size 0 one in which it dies |
| Updates.AttributeJittered | decoder/trace.c:223-260 | with room for three floats: as many elements as fit are printed, and each float of each, and nothing else, is updated |
| Updates.AttributeSurvives | decoder/trace.c:223-260 | the decoder survives an attribute exactly if its buffer is not mapped, or has elements of some size and either none of them or mapped data that ends in the address space |
| Decoder.FetchedInSpace | decoder/trace.c:270 | a fetched range of a recorded mapping can be dereferenced |
| Decoder.SoftJobsReplay | decoder/trace.c:496-497 | every soft job passes the test for a replay |
| Walker.Walker.JitterAll | decoder/trace.c:249-257 | the vertex loop, in place, does what the recursive definition says, and updates every float of every vertex once where vertices do not overlap |
| Walker.Walker.WalkAttribute | decoder/trace.c:223-260 | one attribute: lookup, unmasking, division by the element size (none if it is zero: the process dies), loop |
| Walker.Walker.WalkAttributes | decoder/trace.c:344-360 | the cursor loop over the metadata terminates and refines `TraceAttributes`; the array's address is read from the payload anew in each round |
| Walker.Walker.WalkFbd | decoder/trace.c:118-128 | the descriptor behind the unmasked pointer, or the death of the process on NULL |
| Walker.Walker.WalkAddresses | decoder/trace.c:380-445 | the loop over the fourteen words passes over and dereferences exactly the entries `TraceAddresses` says |
| Walker.Walker.WalkVertexTiler | decoder/trace.c:300-450 | sabotage test, shader, attributes and the rest refine `TraceVertexTiler` |
| Walker.Walker.WalkPayload | decoder/trace.c:289-485 | the switch over job types refines `TracePayload` |
| Walker.Walker.WalkJob | decoder/trace.c:262-287 | one job and the link read when its trace is done |
| Walker.Walker.WalkChain | decoder/trace.c:487-491 | the recursion terminates whenever the walk ends and does what `Walk` says to log and memory |
| Walker.Walker.WalkAtom | decoder/trace.c:494-523 | an atom is a replay record or a chain |
| Walker.Walker.WalkBatch | panwrap/panwrap-syscall.c:537-553 | the atoms of a JOB_SUBMIT are traced in order, those whose address no mapping holds are only reported |
| JobTraces.TraceSet | decoder/trace.c:290-298 | a SET_VALUE job in the pool is decoded as written and left by its link |
| JobTraces.TraceSabotaged | decoder/trace.c:311-314 | a job whose shader pointer lies in the trap megabyte is recognised and left alone |
| JobTraces.SabotageIff | decoder/trace.c:311 | the test asks for the megabyte at 0x5AB00000 and nothing else |
| JobTraces.TraceFbdIs | decoder/trace.c:118-128 | a descriptor in the pool is decoded as written behind any tag below 64 |
| JobTraces.TraceAttributeIs | decoder/trace.c:223-260 | a synthesised attribute gives back the vertex pointer and flag 1, and disturbs only its `size` bytes |
| JobTraces.OneAttribute | decoder/trace.c:341-360 | a metadata list with one word decodes exactly attribute 0, because the next word is still zero |
| JobTraces.AddressesPrinted | decoder/trace.c:380-404 | of a vertex job's fourteen words exactly eight are printed, in order |
| JobTraces.ShaderTag | driver/synthesise.c:160 | address and flags of a vertex shader are recovered by the decoder's masks |
| JobTraces.ModeReadBack | driver/synthesise.c:196 | the drawing mode is the byte read at offset 8 exactly if it is below 0x100 |
| JobTraces.TraceVertex | decoder/trace.c:300-450 | a synthesised vertex job takes the full path, with all it prints, disturbs its vertices and is left by its link |
| LiveJobs.LiveJobTraced | decoder/trace.c:300-450 | any vertex or tiler job that is not sabotaged, in any memory: exactly when the decoder survives it, and all it prints, in order, the parts after the attributes as they then are |
| LiveJobs.TailSurvives | decoder/trace.c:361-450 | after the attributes it survives exactly if the descriptor is mapped and the entries it reads through are NULL or mapped |
| LiveJobs.AddressesTraced | decoder/trace.c:380-445 | eight entries of a vertex job's address array and nine of a tiler job's are printed, in order, up to the first that cannot be read through |
| LiveJobs.ModesPrinted | decoder/trace.c:362-372 | the drawing mode, the ninth byte of the payload, for tiler jobs only; a warning exactly if one of three words is not 0; the kind of descriptor |
| LiveJobs.FbdTraced | decoder/trace.c:118-128 | any descriptor is read at its address rounded down to 64, and kills the decoder if it is not mapped |
| LiveJobs.OtherJob | decoder/trace.c:477-484 | a job of any other type is printed and left by its link |
| LiveJobs.UnmappedEnds | decoder/trace.c:262-287 | a job that is not mapped is reported and ends the walk |
| LiveJobs.NullPayload | decoder/trace.c:289-523 | a payload or replay record that is not mapped kills the decoder |
| AttributeLists.ListTraced | decoder/trace.c:344-360 | an attribute list of any length: its attributes are traced in order, each by the buffer its low byte names, in any memory that agrees on what is read |
| Submits.BatchSplit | panwrap/panwrap-syscall.c:537-553 | a batch is traced from front to back, until the process dies |
| Submits.JcMappedIff | panwrap/panwrap-syscall.c:543 | an atom is traced exactly if some mapping spans its address on the CPU side |
| Submits.UnmappedReported | panwrap/panwrap-syscall.c:537-553 | one that is not is reported, changes nothing and stops nothing, wherever it stands in a batch |
| Submits.MappedTraced | panwrap/panwrap-syscall.c:537-553 | one that is is traced in the memory the atoms before it left |
| RoundTrip.VertexTraced | decoder/trace.c:300-450 | full path or sabotaged, by where its shader descriptor was allocated |
| RoundTrip.JobsTraced | decoder/trace.c:262-492 | the three jobs of a chain, each traced in the memory the one before left |
| RoundTrip.ChainTraced | decoder/trace.c:262-492 | the walk from the first job visits exactly SET_VALUE, VERTEX, TILER in that order and ends; each float of each vertex is updated once and nothing else is, or nothing at all if the vertex job is taken for sabotaged |
| RoundTrip.FullPathOutsideTrap | decoder/trace.c:311-314 | with the pool outside the trap megabyte the chain's trace holds the vertex job's whole output |
| RoundTrip.ResultMatches | driver/synthesise.c:351-403 | what the synthesiser's contract promises is what the decoder needs |
| DriverMaps.DriverMapsSuffice | driver/shim.c:57-94 | the driver's own allocations and mmaps, of the pool and then of any number of chains, each with its zero buffer and two shaders, traced on top of whatever was mapped elsewhere before, leave a map that finds the pool and the vertex shader of every chain, if the kernel gives out ranges that neither overlap nor touch what is mapped |
| DriverMaps.PoolKept | panwrap/panwrap-syscall.c:1054-1059 | any later mmap of a fresh range leaves the pool found |
| DriverMaps.ShaderKept | panwrap/panwrap-syscall.c:1054-1059 | and every shader that was |
| RoundTrip.OlderKept | driver/synthesise.c:351-403 | a new chain leaves everything already in the pool as it was |
| RoundTrip.SynthesiseThenDecode | driver/synthesise.c:351-403 | decoding a synthesised chain, for all arguments and whatever has happened to memory outside the chain's own blocks, prints its fields, changes only its vertex bytes and ends |
| AtomTraces.VertexTilerThenDecode | driver/synthesise.c:351-403 | running the synthesiser and decoding the submitted atom give the chain that was asked for |
| AtomTraces.FragmentThenDecode | driver/synthesise.c:99-143 | decoding a fragment atom visits its one job and prints its coordinates and descriptor |
| AtomTraces.ReplayThenDecode | driver/synthesise.c:405-443 | decoding a replay atom prints the record it was given |
| Batches.ChainIsPiece | driver/synthesise.c:351-403 | what a call leaves in the pool is one of the pieces that can be traced |
| Batches.PiecesStay | decoder/trace.c:249-257 | disturbing any vertices leaves every chain in the pool decodable |
| Batches.PieceTraced | decoder/trace.c:494-523 | the atom of any chain in the pool is decoded as it was asked for, in whatever state earlier decodings left the vertices, each float of which is updated |
| Batches.BatchTraced | panwrap/panwrap-syscall.c:537-553 | so is any batch of atoms in any order; only vertices change, and the pool holds all chains afterwards |
| Sessions.BatchIsStretch | driver/shim.c:145-161 | a batch sent is a stretch of the submissions |
| Sessions.Session.ImportPages | driver/synthesise.c:147-156 | the driver's allocation and mmap of fresh pages go through the tracer in the middle of a session: they are found, and all that was found is found still |
| Sessions.Session.Flush | driver/shim.c:145-153 | what is queued is sent, and can be decoded next |
| Sessions.Session.VertexTiler | driver/synthesise.c:351-403 | a chain can be made at any time, before, between and after decodings; the call allocates its zero buffer, and allocates and maps both its shaders, under the tracer's eyes |
| Sessions.Session.MakeChain | driver/synthesise.c:180-403 | the pool's and the queue's share of it |
| Sessions.Session.Fragment | driver/synthesise.c:99-143 | so can a fragment chain |
| Sessions.Session.Replay | driver/synthesise.c:405-443 | and a replay atom |
| Sessions.Session.DependenciesMet | driver/synthesise.c:104-142 | of what a session that starts with a vertex/tiler chain has submitted, up to 255 atoms, every dependency names the atom just before and can mean no other |
| Sessions.Session.TraceNext | panwrap/panwrap-syscall.c:537-553 | the decoder on the next batch the queue has sent prints exactly the chains submitted in it and leaves a pool the driver can go on with |
| AtomTraces.SynthesisedAcyclic | driver/memory.c:21-27 | rising block addresses make a synthesised chain acyclic |
| Chains.EndsIsAcyclic | decoder/trace.c:487-491 | a chain that reaches a zero link has no job twice |
| Chains.AcyclicEnds | decoder/trace.c:487-491 | a chain without repetition reaches a zero link within the number of addresses |
| Chains.FollowsCovers | decoder/trace.c:487-491 | a walk that follows given links to a zero one has visited every reachable job once and nothing else |
| ChainWalks.InertKeepsClear | decoder/trace.c:289-485 | a chain without live vertex or tiler jobs keeps clear, since no such job rewrites anything |
| Plans.AttributesPlanned | decoder/trace.c:344-360 | in any memory that agrees on what the plan says is read, the metadata loop survives as planned and rewrites only the planned spans |
| Plans.JobPlanned | decoder/trace.c:262-491 | so does the whole job, and it is left by the link of the starting memory |
| ChainWalks.WalkKeeps | decoder/trace.c:262-492 | on a chain whose vertices keep clear of what is read of their own and all later jobs, whatever is read of the jobs still to come is as it was in the starting memory, after any number of jobs |
| ChainWalks.ClearKeepsLinks | decoder/trace.c:249-257 | vertices that keep clear in that sense of headers, payloads, shader words, metadata and attribute buffers, in the starting memory, keep the links of all jobs still to come |
| ChainWalks.PlanOk | decoder/trace.c:262-485 | a job of such a chain is planned to kill the decoder exactly if tracing it in the starting memory does, whatever is drawn |
| ChainWalks.WalkFollows | decoder/trace.c:262-492 | on such a chain the walk visits its jobs in order, until a link is 0 or the decoder dies |
| ChainWalks.WalkEndsIff | decoder/trace.c:262-492 | the walk ends exactly when the chain is acyclic and none of its jobs kills the decoder, both told from the starting memory; on an acyclic chain it stops in any case |
| ChainWalks.WalkCovers | decoder/trace.c:262-492 | a walk that ends has visited every reachable job once and nothing else |
| ClearChains.SynthesisedClear | driver/synthesise.c:351-403 | synthesised chains keep their vertices clear, are acyclic and kill nobody, so all of this holds of them |
| Overlap.OverlapNeverEnds | decoder/trace.c:249-257 | a memory with one job that links to none, whose vertices are its own header, and random numbers for which the walk never ends |
| FrozenClock.TimespecAdd | panwrap/panwrap-util.c:194-204 | exact in nanoseconds and normal again, with every `tv_nsec` on the way within 32 bits |
| FrozenClock.TimespecSubtract | panwrap/panwrap-util.c:206-216 | the same for the difference |
| FrozenClock.Timestamps.FreezeTime | panwrap/panwrap-util.c:242-258 | the globals refine the abstract clock; nothing when timestamps are off |
| FrozenClock.Timestamps.UnfreezeTime | panwrap/panwrap-util.c:260-273 | adds the interval to the total, and does nothing when time is not frozen |
| FrozenClock.Timestamps.TimestampGet | panwrap/panwrap-util.c:275-286 | the frozen stamp, or elapsed time less the total |
| Threads.ProgramDisciplined | panwrap/panwrap-syscall.c:884-1115 | every intercepted call freezes only under the lock and from running time, calls the kernel with time running, and leaves lock and clock free |
| Threads.Reachable | panwrap/panwrap-syscall.c:884-1115 | over every interleaving: lock and clock discipline, and the clock agrees with the record of the run |
| Threads.FrozenOnlyLocked | panwrap/panwrap-syscall.c:974-1009 | time is frozen only while the lock is held |
| Threads.StepsInOrder | panwrap/panwrap-syscall.c:974-1114 | every freeze starts from running time, and freezing, thawing and logging are the lock holder's |
| Threads.TotalIsFrozenTime | panwrap/panwrap-util.c:260-273 | whenever time runs, the total is the sum of all frozen intervals, which alternate with running ones |
| Threads.StampsExact | panwrap/panwrap-util.c:275-301 | every logged timestamp is elapsed time minus the time frozen up to it |
| Threads.StampsRise | panwrap/panwrap-util.c:275-301 | logged timestamps never decrease |
| Threads.SomeoneCanStep | panwrap/panwrap-syscall.c:884-1115 | while a call is unfinished some thread can go on |
| Calls.ProgramComplete | panwrap/panwrap-syscall.c:884-1115 | every kind of call goes to the kernel once, logs all its lines under the lock, with the clock stopped exactly in ioctl, mmap and munmap, and stops it right after the kernel call or, in an ioctl, first right after locking |
| Calls.CallsFollowed | panwrap/panwrap-syscall.c:884-1115 | in every reachable state each thread has done what its kind of call may do, and all of it when it is through |
| Calls.LinesShowFreeze | panwrap/panwrap-util.c:242-301 | over every run: a line logged by an ioctl, mmap or munmap is logged with the clock stopped by that call and carries the time of the last freeze, as do all lines since; lines of other calls are logged with it running |
| Calls.RunsAroundKernel | panwrap/panwrap-syscall.c:974-1114 | over every run: under the lock of such a call the clock runs only around the kernel call, from lock to freeze and from the last unfreeze to unlock |
| Hexdump.HexdumpTo | panwrap/panwrap-util.c:69-116 | the loop prints exactly the rows of `Dump`; a NULL pointer gets its message |
| HexdumpReader.CellsBack | panwrap/panwrap-util.c:82-113 | the cells of a row, padded or not, give back its bytes; blanks and small hexadecimal digits are checked |
| HexdumpReader.RowsAre | panwrap/panwrap-util.c:81-105 | rows stand at the multiples of 16, all but the last are full, and together hold each byte once and in order; the letter of a byte shows it if it can be printed and is below 0xA0, and all others are dots |
| HexdumpReader.DumpBack | panwrap/panwrap-util.c:69-116 | a reader that checks indent, digits and frames recovers exactly the input and the letters from the printed rows |
| HexdumpReader.HexdumpTrimmed | panwrap/panwrap-util.c:122-156 | the scan from the end prints the dump of the trimmed prefix and the line for the zeros |
| HexdumpReader.TrimmedIsAll | panwrap/panwrap-util.c:138-149 | prefix and stated zeros are the input, the prefix ends in a nonzero byte if anything was trimmed, and zeros alone are dumped whole |
| HexdumpReader.TrimmedBack | panwrap/panwrap-util.c:122-156 | a reader recovers exactly the input from the trimmed dump; its last line is there exactly if trimming is on and some byte is not 0, also when no zeros follow |
| Flags.DecodedPartitions | panwrap/panwrap-util.c:37-67 | printed masks and residual are the word, and no bit is in two of them, whether or not the table's masks overlap |
| Flags.NothingLeft | panwrap/panwrap-util.c:45-58 | no nonzero entry of the table is left in the residual in full |
| Flags.PrintedIff | panwrap/panwrap-util.c:45-58 | an entry is printed exactly if all its bits are set and none was taken by an entry before it |
| Flags.TextIs | panwrap/panwrap-util.c:43-66 | the text lists exactly those entries and the residual, if there is one |
| Flags.LogDecodedFlags | panwrap/panwrap-util.c:37-67 | the loop prints that text |
| FlagsReader.TextBack | panwrap/panwrap-util.c:37-67 | a reader recovers word, names and residual from the printed text, for any table of identifiers; numbers are in small digits without leading zeros |
| FlagsReader.NamesTell | panwrap/panwrap-util.c:43-58 | with names that differ the names read tell which entries were decoded |

## Left out

- The system calls themselves, symbol interposition and variable arguments: their results are parameters.
- Failure of mmap and munmap: the source checks neither result, and the model records what it is given.
- `free`: a deleted entry leaves the model's heap description; reuse of its memory is not modelled. MEM_FREE does not prune `allocations`, as in the source.
- The other ioctl decoders, the fields printed of an atom beside its trace, and the property dump; `ioctl_decode_pre_job_submit` also prints the wrong index of `pre_dep`.
- Opaque dumps inside the decoder, the shader file it writes, the names printed for job types and modes, and the float values printed of vertices.
- Decoder.TraceFbd: the line printed before a NULL descriptor kills the process is not part of the trace.
- Walker.Walker.WalkChain: a walk that never ends, in which the source recurses until the stack ends, is not an input; `ChainWalks.WalkEndsIff` says which those are.
- ChainWalks.WalkEndsIff: the decoder rewrites vertices as it walks, so the theorem is for chains whose vertices keep clear of what is read of the chain in the starting memory; `Overlap.OverlapNeverEnds` is a chain where they do not, and the walk never ends.
- Synthesiser.Synth.JobChainReplay: the two 16-bit mask stores are one 32-bit store.
- Atomic steps: everything the intercepted calls do to clock and log happens under the lock, so each such step is taken as one; the test of the traced descriptor outside the lock only decides which kind of call it is.
- Time stamps as text, and the log's own prefix, which is part of `indent` in the dumps.
- Dumps of more than 2 GiB, where the source's signed offset is negative from the start.
- Soft jobs other than replay, whose branch cannot be reached.
- `gfree` (a stub), `ioctl_get_info`, environment parsing, the prototype's `main`, builds and documents.
