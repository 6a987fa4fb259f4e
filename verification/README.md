# Verified models of Radon OS components

Radon OS is a microkernel with user-space drivers. This project models eight of its parts
in Dafny and proves what they are relied on for. Each part has a specification (values,
step functions, and lemmas over all inputs or all runs) and, where the code works by
updating fields and buffers, a class or method with loops that is proved to refine it.

| file | part | abstract object it is related to |
|---|---|---|
| `Ring.dfy` | virtio-style descriptor ring (split virtqueue, section 2.6 of VIRTIO 1.1) | a free list, a set of buffer chains, two unbounded FIFO histories |
| `Vmo.dfy` | copy-on-write memory objects | flat byte arrays, plus a partition of the page frames |
| `AmlExpr.dfy` | AML interpreter loop, integer expressions (section 20.2.5 of the ACPI Specification) | a recursive evaluator |
| `AmlField.dfy` | AML field access (section 5.5.2.4 of the ACPI Specification) | the bits of the operation region |
| `NvmeQueue.dfy` | NVMe submission and completion queues (sections 4.1.2 and 4.6 of NVM Express Base Specification 1.4) | unbounded command and completion histories |
| `NvmePrp.dfy` | PRP entries and lists (section 4.3 of the same) | the byte addresses a controller transfers |
| `NvmeBlock.dfy` | byte-addressed block layer | one flat byte array |
| `Slab.dfy` | slab allocator | disjoint extents of physical memory |
| `Path.dfy` | double-ended path component parser | the list of components of a path |
| `Sched.dfy` | per-CPU scheduler | a state machine over task calls |
| `Handles.dfy`, `Channels.dfy`, `Ipc.dfy`, `Syscalls.dfy` | handle tables, channels, and the system calls over them | capabilities counted over all processes; FIFO channels |
| `Common.dfy` | option and result types, the page size, arithmetic, sums over maps | |

`dafny verify dfyconfig.toml` checks everything.

## How the parts are modelled

- Concurrency: every call, system call and device action is one atomic step. Devices
  (the ring's device, the NVMe controller) are step methods that see only slots, registers
  and wrapping indices; they may act in any order that the protocol allows.
- Machine integers: 16-bit ring indices, the NVMe entry words and phase bit, and AML's
  64-bit arithmetic wrap as in the code. Lengths, addresses, handle values and object
  numbers are unbounded.
- Memory: page frames, slab blocks and PRP lists live in maps from addresses to contents,
  so links stored inside free memory and lists read back by a controller are real reads.
- Object identity: a memory object, task or kernel object is a number; `Arc` is the number
  itself, and dropping the last reference is an explicit step.
- Allocation and I/O failure: a free-frame set, an optional allocation result, or the sets
  of unreadable and unwritable blocks decide the outcome, so error paths are covered.
- Ghost histories (all entries ever pushed, posted, sent) are what the small wrapping
  indices are related to.

## Where the code does not do what one would expect

Each of these is a lemma with a concrete input or an exact condition.

- A committing, non-contiguous `create` that runs out of frames part-way never gives the
  frames it took back: `Vmo.WhenCreateLeaks`.
- A task woken between blocking itself and its next schedule is queued while it is still on
  the CPU, and ends up in the ready queue twice: `Sched.EarlyWakeUp`. `Sched.StepIff` gives
  for every call the exact condition under which the invariant is kept.
- A task that has exited can come back: one that exits on the CPU is left in state Stopped,
  and stopping one that exited makes it Stopped too, from which it can be started again:
  `Sched.ExitUndone`. `Sched.ExitFinal` gives the exact condition over every later run.
- PRP lists of more than 512 entries are not split into chained pages:
  `NvmePrp.WhenListsDecode`, `NvmePrp.LongListFails`. Segments that do not meet as the
  controller takes them to are described wrongly: `NvmePrp.WhenSegmentsDecode` gives the exact
  condition, `NvmePrp.ListForData` an example.
- `QueuePair::submit` returns a command id even when the queue refused the command:
  `NvmeQueue.QueuePair.Submit`, `NvmeQueue.RefusedCommand`.
- Freeing a descriptor twice, or one of a live chain, is not noticed and makes the free list
  unsound: `Ring.FreeIff`.
- A send that fails because the other end is gone or full has already removed the listed
  handles from the sender; the capabilities are lost: `Ipc.WhenSendLoses`, `Ipc.SendCanLose`.
  A receive without room for handles drops those in the message: `Ipc.WhenRecvLoses`,
  `Ipc.RecvCanLose`.
- The slab allocator forgets every remainder smaller than a page. `Allocate`, `FreeLive` and
  the constructor count these bytes in `lost` and say when there are none.
- A field read into a buffer allocates the bit length, rounded up to a multiple of eight,
  in bytes, which is eight times what is needed; the model does the same.

## Model

| member | source | states |
|---|---|---|
| `Ring.ExactlyOneHolder` | libdriver/src/ring.rs:206-237 | every descriptor is on the free list or in exactly one live chain (or taken out by a caller), never two of these |
| `Ring.WalkYieldsBuffers` | libdriver/src/ring.rs:322-365 | following next links from a live head yields exactly the buffers the chain was built from, in order, and stops |
| `Ring.InitialFreeList` | libdriver/src/ring.rs:143-148 | the links set up at creation thread all descriptors once and end in 0xFFFF |
| `Ring.PopFree` | libdriver/src/ring.rs:206-216 | taking the head leaves the rest of the free list intact |
| `Ring.PushFree` | libdriver/src/ring.rs:219-223 | putting a descriptor back extends the free list |
| `Ring.FreeIff` | libdriver/src/ring.rs:219-223 | freeing leaves some reading of free list and chains in which each descriptor has one place if and only if the caller held the descriptor; a double free closes the list to a ring |
| `Ring.JoinChain` | libdriver/src/ring.rs:322-365 | descriptors linked one after another become a live chain; free list and other chains are untouched |
| `Ring.SplitChain` | libdriver/src/ring.rs:226-237 | a live chain leaves the table of chains without disturbing the others |
| `Ring.SlotOf` | libdriver/src/ring.rs:240-268 | a wrapped 16-bit counter picks slot k mod size, because the size is a power of two |
| `Ring.PushKeepsWindow` | libdriver/src/ring.rs:240-250 | writing the next slot keeps the last `size` entries of the history readable |
| `Ring.OutstandingBounded` | libdriver/src/ring.rs:240-268 | at most `size` entries are pushed and not taken, or posted and not popped, because each is a different live chain |
| `Ring.SameResidue` | libdriver/src/ring.rs:253-268 | equal 16-bit indices mean equal true counts, so the emptiness test is exact |
| `Ring.OfferKeepsTransit` | libdriver/src/ring.rs:301-365 | offering a chain: each live chain is pending, in the device, posted or returned, in exactly one place |
| `Ring.ReclaimKeepsTransit` | libdriver/src/ring.rs:226-237 | freeing a returned chain keeps that |
| `Ring.TakeKeepsTransit` | libdriver/src/ring.rs:240-250 | the device taking the next entry keeps that |
| `Ring.PostKeepsTransit` | libdriver/src/ring.rs:253-268 | the device posting a chain it holds keeps that |
| `Ring.PopKeepsTransit` | libdriver/src/ring.rs:253-268 | popping a posted entry keeps that |
| `Ring.RingBuffer.New` | libdriver/src/ring.rs:107-140 | refuses size 0 and non-powers of two, reports lack of memory, and otherwise makes an empty valid ring |
| `Ring.RingBuffer.InitFreeList` | libdriver/src/ring.rs:143-148 | loop that threads the free list |
| `Ring.RingBuffer.AllocDesc` | libdriver/src/ring.rs:206-216 | fails exactly when none is free; otherwise returns the head and shortens the list by it |
| `Ring.RingBuffer.FreeDesc` | libdriver/src/ring.rs:219-223 | puts a descriptor at the head of the list; the table stays sound if and only if the caller held it |
| `Ring.RingBuffer.FreeChain` | libdriver/src/ring.rs:226-237 | terminates and returns the whole chain to the free list, in order; the ledger becomes `Reclaim` |
| `Ring.RingBuffer.PushAvail` | libdriver/src/ring.rs:240-250 | the k-th push lands in slot k mod size and the index wraps at 16 bits; no other slot changes |
| `Ring.RingBuffer.PopUsed` | libdriver/src/ring.rs:253-268 | returns posted entries in order, each once; nothing exactly when the true counts are equal |
| `Ring.RingBuffer.AddBuffer` | libdriver/src/ring.rs:301-319 | fails exactly when no descriptor is free, without any stored word changing; otherwise the ledger becomes `Offer` of one buffer; descriptors a caller holds keep their words |
| `Ring.RingBuffer.AddBufferChain` | libdriver/src/ring.rs:322-365 | all or nothing: fails, without any stored word changing, exactly on an empty list or too few descriptors; otherwise offers one chain of all buffers; descriptors a caller holds keep their words |
| `Ring.RingBuffer.LinkAll` | libdriver/src/ring.rs:330-359 | loop that takes, fills and links one descriptor for each buffer |
| `Ring.RingBuffer.DeviceTake` | libdriver/src/ring.rs:240-250 | environment: the device reads avail entries in order and never an overwritten one |
| `Ring.RingBuffer.DevicePost` | libdriver/src/ring.rs:253-268 | environment: the device posts a head it holds to the used ring |
| `Vmo.CopyUnseen` | kernel/src/object/vmo.rs:323-387 | copying a page to its own frame changes no object's logical bytes, for clone chains of any depth |
| `Vmo.ResolveElsewhere` | kernel/src/object/vmo.rs:323-387 | changing an object is felt exactly by the pages whose lookup goes through it, which then resolve to what its changed page does |
| `Vmo.ResolveBelow` | kernel/src/object/vmo.rs:323-387 | changing an object leaves alone all lookups that start at an older object |
| `Vmo.WriteSeen` | kernel/src/object/vmo.rs:423-453 | after a write every page of every object is the old one, or, if its lookup lands in the written range, the spliced one |
| `Vmo.LandsOnAncestor` | kernel/src/object/vmo.rs:178-212 | only descendants share a page with an object |
| `Vmo.WriteIsolated` | kernel/src/object/vmo.rs:423-453 | a write is invisible to ancestors, siblings and unrelated objects |
| `Vmo.WriteBytes` | kernel/src/object/vmo.rs:423-453 | a write changes exactly its own range of its own object |
| `Vmo.ZeroedBytes` | kernel/src/object/vmo.rs:298-320 | after a decommit, byte by byte: zero in own pages of the range, unchanged elsewhere |
| `Vmo.ResizedBytes` | kernel/src/object/vmo.rs:220-249 | after a resize, byte by byte: unchanged below the new number of pages, zero beyond |
| `Vmo.ClonedBytes` | kernel/src/object/vmo.rs:178-212 | byte by byte, a clone reads as its parent from the start page on |
| `Vmo.PageCount` | kernel/src/object/vmo.rs:92-93 | the fewest pages that hold a number of bytes |
| `Vmo.CloneReads` | kernel/src/object/vmo.rs:178-212 | a clone reads as the parent's pages from its offset on; no other object changes |
| `Vmo.Conservation` | kernel/src/object/vmo.rs:86-149 | free, held and lost frames add up to all frames, always |
| `Vmo.Disjoint` | kernel/src/object/vmo.rs:86-149 | no frame is in two of free, held and lost |
| `Vmo.WhenCreateLeaks` | kernel/src/object/vmo.rs:116-131 | exactly when creation loses frames, with an example |
| `Vmo.Install` | kernel/src/object/vmo.rs:353-378 | giving a page slot a free frame keeps one slot for each held frame and sets that page |
| `Vmo.Remove` | kernel/src/object/vmo.rs:298-320 | taking the frame from a slot keeps that and zeroes the page |
| `Vmo.Kernel.GetPage` | kernel/src/object/vmo.rs:323-387 | returns a frame holding the page's logical bytes; on a write it is the object's own; out of range exactly when there is no page, out of memory exactly when fewer frames are free than `Needed`; no logical byte changes |
| `Vmo.Kernel.ReadAt` | kernel/src/object/vmo.rs:390-420 | returns exactly the logical bytes of the range cut at the object's size; changes no object |
| `Vmo.Kernel.WriteAt` | kernel/src/object/vmo.rs:423-453 | the world becomes `Write` of the range cut at the object's size; a failing write leaves a prefix written |
| `Vmo.Kernel.Commit` | kernel/src/object/vmo.rs:265-295 | changes no logical byte; on success every byte of the range lies in a page that is not uncommitted; out of range exactly beyond the pages, out of memory exactly when fewer frames are free than pages of the range are uncommitted; only such pages change |
| `Vmo.Kernel.Decommit` | kernel/src/object/vmo.rs:298-320 | every byte of the range whose page is the object's own reads zero, and so do the others of those pages; no other byte changes; exactly their frames become free |
| `Vmo.Kernel.Resize` | kernel/src/object/vmo.rs:220-249 | refused exactly when not resizable; otherwise the fewest pages that hold the new size; bytes below it stay, all others read zero; exactly the frames of cut pages become free |
| `Vmo.Kernel.CreateCowClone` | kernel/src/object/vmo.rs:178-212 | refused exactly beyond the parent's size; otherwise the fewest pages that hold the size, each byte reading as the parent's from the start of the page of the offset on |
| `Vmo.Kernel.Create` | kernel/src/object/vmo.rs:86-149 | succeeds exactly when the size is positive and the frames are there, with the fewest pages that hold the size; every byte reads zero; what is lost on failure is `LostBy` |
| `Vmo.Kernel.Drop` | kernel/src/object/vmo.rs:456-471 | exactly the object's frames become free again |
| `AmlExpr.ReturnCorrect` | kernel/crates/acpi/src/aml/mod.rs:397-449 | for every expression and any following code, running `Return` of its encoding yields what the recursive evaluator yields and stops right behind the encoding; division by zero inside stops the interpreter |
| `AmlExpr.ExecExpr` | kernel/crates/acpi/src/aml/mod.rs:397-449 | running an encoded expression (constants, binary maths with a null target, comparisons, nested in any way) on any stack of waiting operations hands its value to the top one and goes on right behind the encoding |
| `AmlExpr.Execute` | kernel/crates/acpi/src/aml/mod.rs:397-449 | the loop with its explicit stack computes `Exec`; at every fetch each operation on the stack lacks an argument |
| `AmlExpr.StacksLack` | kernel/crates/acpi/src/aml/mod.rs:397-449 | for every code, from every stack of operations of which all but the top one lack an argument: whenever the loop fetches, each operation on its stack lacks one |
| `AmlExpr.Retire` | kernel/crates/acpi/src/aml/mod.rs:397-449 | retiring full operations terminates and leaves only operations that lack an argument |
| `AmlExpr.ExecMath` | kernel/crates/acpi/src/aml/mod.rs:1696-1729 | a binary operation with both operands takes the null target and contributes its result to the one below, or stops at a zero divisor |
| `AmlExpr.ExecLogic` | kernel/crates/acpi/src/aml/mod.rs:1773-1846 | a logical operation with its two arguments contributes its result to the one below |
| `AmlExpr.CompleteReturn` | kernel/crates/acpi/src/aml/mod.rs:900-915 | Return with its argument ends the run with that value |
| `AmlExpr.PushTop` | kernel/crates/acpi/src/aml/mod.rs:2706-2712 | a value goes to the operation on top of the stack |
| `AmlExpr.LeRoundTrip` | kernel/crates/acpi/src/aml/mod.rs:1115-1163 | little-endian constants decode to the encoded value |
| `AmlExpr.MathMeaning` | kernel/crates/acpi/src/aml/mod.rs:1696-1729 | each binary operation is the usual arithmetic modulo 2 to the 64, or the usual operator on every bit |
| `AmlExpr.BitwiseBits` | kernel/crates/acpi/src/aml/mod.rs:1696-1729 | And, Or and Xor work bit by bit |
| `AmlExpr.ComplementBits` | kernel/crates/acpi/src/aml/mod.rs:1696-1729 | Nand and Nor flip every bit |
| `AmlExpr.TimesMeaning` | kernel/crates/acpi/src/aml/mod.rs:1696-1729 | Multiply is the product before wrapping |
| `AmlExpr.ShlMeaning` | kernel/crates/acpi/src/aml/mod.rs:1696-1729 | ShiftLeft multiplies by a power of two before wrapping |
| `AmlExpr.ShrMeaning` | kernel/crates/acpi/src/aml/mod.rs:1696-1729 | ShiftRight divides by a power of two |
| `AmlExpr.RemMeaning` | kernel/crates/acpi/src/aml/mod.rs:1696-1729 | Mod is the remainder |
| `AmlExpr.LogicMeaning` | kernel/crates/acpi/src/aml/mod.rs:1829-1840 | results are zero or all ones; less-than holds across every positive difference and not the other way round; the other comparisons follow from it, from equality and from which operands are zero |
| `AmlExpr.ArithmeticOpcodes` | kernel/crates/acpi/src/aml/mod.rs:1696-1729 | from the bytes: what `Return` of each arithmetic operator byte and two encoded expressions yields, as arithmetic modulo 2 to the 64 |
| `AmlExpr.BitwiseOpcodes` | kernel/crates/acpi/src/aml/mod.rs:1696-1729 | the same for the bitwise operator bytes, bit by bit |
| `AmlExpr.LogicOpcodes` | kernel/crates/acpi/src/aml/mod.rs:1829-1840 | the same for the comparison bytes, by the order of the operands |
| `AmlExpr.NegatedOpcodes` | kernel/crates/acpi/src/aml/mod.rs:1829-1840 | the same for the comparisons that are encoded with a leading LNot byte |
| `AmlExpr.ConstOpcodes` | kernel/crates/acpi/src/aml/mod.rs:1115-1163 | the same for the constant bytes: zero, one, all ones, and little-endian values of one, two, four and eight bytes |
| `AmlExpr.ExecEnds` | kernel/crates/acpi/src/aml/mod.rs:397-449 | how a run ends when the code is over, a constant is cut off, or a constant has no operation to go to |
| `AmlField.CopyBits` | kernel/crates/acpi/src/aml/object.rs:437-474 | moves exactly the given bit range and leaves all other destination bits alone |
| `AmlField.RoundCopies` | kernel/crates/acpi/src/aml/object.rs:445-473 | one round moves up to eight bits, across byte boundaries on both sides |
| `AmlField.PlacedBits` | kernel/crates/acpi/src/aml/object.rs:456-470 | where the bits of a round end up, and that nothing else changes |
| `AmlField.GatheredBits` | kernel/crates/acpi/src/aml/object.rs:446-455 | which source bits a round collects |
| `AmlField.AccessBytes` | kernel/crates/acpi/src/aml/object.rs:333-345 | access widths in bytes; invalid exactly for access types above five |
| `AmlField.AccessFacts` | kernel/crates/acpi/src/aml/mod.rs:2281-2350 | every native access is aligned and its share continues where the last one ended |
| `AmlField.AllCovered` | kernel/crates/acpi/src/aml/mod.rs:2281-2350 | the accesses together cover the whole field |
| `AmlField.DoFieldRead` | kernel/crates/acpi/src/aml/mod.rs:2281-2350 | the result holds exactly the field's bits, zero-extended; integer or buffer by length and revision; error exactly for invalid flags |
| `AmlField.DoFieldWrite` | kernel/crates/acpi/src/aml/mod.rs:2353-2426 | the field's bits become the value's; by bits 5 and 6 of the flags, the other bits of the accessed units stay, become one or become zero; no other bit changes; with whole accesses only the rule is never asked for |
| `AmlField.WriteThenRead` | kernel/crates/acpi/src/aml/mod.rs:2281-2426 | reading back after a write gives the value's low bits, zero-extended |
| `AmlField.AroundField` | kernel/crates/acpi/src/aml/mod.rs:2353-2426 | outside the field: with Preserve no bit changes; otherwise the bits of touched accesses become ones or zeros by the rule and no others change |
| `AmlField.RuleOf` | kernel/crates/acpi/src/aml/object.rs:351-357 | bits 5 and 6 of the flags choose the update rule |
| `AmlField.BesideIs` | kernel/crates/acpi/src/aml/mod.rs:2382-2388 | the accesses touch exactly the units of the access width from the one the field starts in to the one it ends in |
| `NvmeQueue.HeldStep` | drivers/nvme/src/nvme/mod.rs:469-487 | one more entry overwrites only a slot whose entry is no longer needed |
| `NvmeQueue.LapBack` | drivers/nvme/src/nvme/mod.rs:536-556 | the entry one lap earlier is in the same slot with the opposite phase |
| `NvmeQueue.Laps` | drivers/nvme/src/nvme/mod.rs:469-487 | equal residues of counters at most one lap apart mean equal or exactly one lap apart |
| `NvmeQueue.Posting` | drivers/nvme/src/nvme/mod.rs:184-219 | the packed words of a completion unpack to the fields that were put in |
| `NvmeQueue.EntryLayout` | drivers/nvme/src/nvme/mod.rs:184-219 | in which bits of which word each field of a completion lies |
| `NvmeQueue.SubmissionQueue.Submit` | drivers/nvme/src/nvme/mod.rs:469-487 | refuses exactly when depth - 1 commands are outstanding by the last report; never overwrites an unfetched command |
| `NvmeQueue.SubmissionQueue.UpdateHead` | drivers/nvme/src/nvme/mod.rs:495-497 | takes over a reported head |
| `NvmeQueue.CompletionQueue.Poll` | drivers/nvme/src/nvme/mod.rs:536-556 | returns posted entries in order, each once; nothing exactly when nothing new is posted |
| `NvmeQueue.CompletionQueue.Place` | drivers/nvme/src/nvme/mod.rs:512-528 | environment: a posting goes into the next slot with the phase of its lap |
| `NvmeQueue.QueuePair.Submit` | drivers/nvme/src/nvme/mod.rs:631-649 | the command reaches the queue exactly when fewer than depth - 1 are outstanding; its id is returned either way |
| `NvmeQueue.RefusedCommand` | drivers/nvme/src/nvme/mod.rs:631-649 | a second command on a queue of depth two: it gets an id and counts as pending, but the controller never sees it |
| `NvmeQueue.QueuePair.PollCompletion` | drivers/nvme/src/nvme/mod.rs:660-672 | passes on the next completion and the head it reports, which never runs backwards or past what was fetched |
| `NvmeQueue.QueuePair.Fetch` | drivers/nvme/src/nvme/mod.rs:469-487 | environment: the controller fetches the commands in order, judging by the doorbell alone |
| `NvmeQueue.QueuePair.Complete` | drivers/nvme/src/nvme/mod.rs:512-528 | environment: the controller posts unless the queue is full by the doorbell |
| `NvmePrp.PagesAt` | drivers/nvme/src/nvme/mod.rs:259-335 | every entry after the first is page-aligned, one page after the other, and how many there are |
| `NvmePrp.SpreadPages` | drivers/nvme/src/nvme/mod.rs:259-298 | the entries of a run of bytes stand for exactly these bytes |
| `NvmePrp.ReadsBack` | drivers/nvme/src/nvme/mod.rs:301-335 | what a controller reads back: the entries if the list fits one page; from a longer list it takes the 512th word for a link |
| `NvmePrp.BufferDecodes` | drivers/nvme/src/nvme/mod.rs:259-335 | with at most 512 list entries a controller transfers exactly base to base + length, in order |
| `NvmePrp.LongListDecodes` | drivers/nvme/src/nvme/mod.rs:301-335 | with more it does if and only if the data page at the 513th entry happens to hold the rest of the list |
| `NvmePrp.WhenListsDecode` | drivers/nvme/src/nvme/mod.rs:301-335 | over all memories and all page-aligned list addresses: the description of a buffer is right if and only if its list has at most 512 entries |
| `NvmePrp.LongListFails` | drivers/nvme/src/nvme/mod.rs:301-335 | for every longer list, at every page-aligned address behind the buffer: a memory for which the transfer is wrong |
| `NvmePrp.FromPhys` | drivers/nvme/src/nvme/mod.rs:259-298 | zero, one, two or a list of entries by length; fails exactly when a list is needed and there is no memory; decodes to the buffer |
| `NvmePrp.BuildPrpList` | drivers/nvme/src/nvme/mod.rs:301-335 | loop that writes the list to memory and touches no other word |
| `NvmePrp.SegmentsDecode` | drivers/nvme/src/nvme/mod.rs:338-360 | the entries a controller expects are page-aligned after the first and stand for exactly the bytes of the segments, in order, if and only if the segments meet as it takes them to |
| `NvmePrp.WhenSegmentsDecode` | drivers/nvme/src/nvme/mod.rs:338-398 | for every list of segments a controller expects at most 513 pages for, with the PRP list apart from the data: it transfers exactly their bytes, in order, if and only if `Fits`: up to the last page segments meet at page boundaries, within it they follow one another, and where two pages are expected there are only two entries |
| `NvmePrp.JoinedFit` | drivers/nvme/src/nvme/mod.rs:338-398 | segments that all meet at page boundaries fit |
| `NvmePrp.Contiguous` | drivers/nvme/src/nvme/mod.rs:338-398 | segments that fit though they meet within a page |
| `NvmePrp.ListForData` | drivers/nvme/src/nvme/mod.rs:376-398 | segments for which the list itself is transferred as data |
| `NvmePrp.CollectEntries` | drivers/nvme/src/nvme/mod.rs:347-360 | the nested loops collect the entries of all segments in order |
| `NvmePrp.FromSegments` | drivers/nvme/src/nvme/mod.rs:338-398 | no segments, only empty segments and lack of memory as in the code; otherwise the transfer is exactly the concatenation if and only if the segments fit |
| `NvmePrp.OneSegment` | drivers/nvme/src/nvme/mod.rs:338-398 | one segment gives the entries of the buffer it is, and fits |
| `NvmeBlock.FlatBlock` | drivers/nvme/src/main.rs:61-64 | block b is the b-th stretch of the flat array |
| `NvmeBlock.FlatUpdate` | drivers/nvme/src/main.rs:129-131 | writing a block replaces its stretch and nothing else |
| `NvmeBlock.WholeOrPart` | drivers/nvme/src/main.rs:122-129 | a partial write through a copy of the block, or a whole write without reading, changes exactly the given bytes |
| `NvmeBlock.BeforeStep` | drivers/nvme/src/main.rs:61-84 | the parts of the blocks follow one another without gap or overlap |
| `NvmeBlock.NvmeDriverHandler.ReadBlock` | drivers/nvme/src/main.rs:45-87 | returns exactly the range; stops at the first unreadable block with only the bytes before it filled in; empty buffers succeed |
| `NvmeBlock.NvmeDriverHandler.WriteBlock` | drivers/nvme/src/main.rs:89-135 | changes exactly the range, keeping the rest of partial blocks; stops at the first block that cannot be written with only the bytes before it changed |
| `NvmeBlock.NvmeDriverHandler.WriteOne` | drivers/nvme/src/main.rs:120-131 | one block of a write: read first unless replaced whole |
| `Slab.PushBlock` | kernel/crates/rmm/src/main.rs:68-75 | a block carved off clear memory overlaps no free block and no live allocation |
| `Slab.PushList` | kernel/crates/rmm/src/main.rs:68-75 | it becomes the top of its list, linked through memory |
| `Slab.OtherList` | kernel/crates/rmm/src/main.rs:68-89 | memory of other blocks holds the links of the other lists, which stay intact |
| `Slab.PopList` | kernel/crates/rmm/src/main.rs:77-89 | the link read from the top block is the next block of the list |
| `Slab.PopBlock` | kernel/crates/rmm/src/main.rs:77-89 | the block taken off is clear of everything else |
| `Slab.SlabAllocator.constructor` | kernel/crates/rmm/src/main.rs:99-126 | the free memory is exactly what lies in the areas beyond the offset, free or, below a page, lost; nothing is lost for page-multiple areas and offset |
| `Slab.BeyondOffset` | kernel/crates/rmm/src/main.rs:99-126 | a byte is given to the allocator if and only if it is in an area and `offset` bytes of the areas come before it |
| `Slab.SlabAllocator.AddArea` | kernel/crates/rmm/src/main.rs:106-124 | one area: its first bytes are skipped, new blocks lie beyond them, the rest is free or lost |
| `Slab.SlabAllocator.Insert` | kernel/crates/rmm/src/main.rs:68-75 | puts a block on top of the list of its size |
| `Slab.SlabAllocator.Remove` | kernel/crates/rmm/src/main.rs:77-89 | takes the top block off; nothing exactly when the list is empty |
| `Slab.SlabAllocator.Free` | kernel/crates/rmm/src/main.rs:146-159 | clear memory goes on the free lists as exactly these blocks, in order: as many gigabytes as fit, then blocks of two megabytes, then pages; the remainder below a page does not |
| `Slab.SlabAllocator.Allocate` | kernel/crates/rmm/src/main.rs:128-142 | takes the top block of the first non-empty list of large enough blocks and frees the rest of it as above; fails exactly when there is none; free, live and lost bytes stay equal in total, nothing is lost exactly for page multiples, and everything stays inside the memory given at the start |
| `Slab.SlabAllocator.FreeLive` | kernel/crates/rmm/src/main.rs:146-159 | gives a live allocation back, as the blocks above; the total stays equal and only a remainder below a page is lost |
| `Slab.SlabAllocator.ClientWrite` | kernel/crates/rmm/src/main.rs:68-75 | writes inside live allocations never touch a free-list link |
| `Slab.SlabAllocator.Remaining` | kernel/crates/rmm/src/main.rs:161-169 | is the number of free bytes, and together with live and lost bytes the total |
| `Path.PiecesSplit` | drivers/rootns/crates/efs/src/path.rs:674-704 | a slash separates: the components of the text are those before it followed by those after it |
| `Path.ParseNextTakes` | drivers/rootns/crates/efs/src/path.rs:674-686 | parsing from the left takes the first piece, or one slash |
| `Path.ParseNextBackTakes` | drivers/rootns/crates/efs/src/path.rs:689-706 | parsing from the right takes the last piece, or one slash |
| `Path.CanonicalKeeps` | drivers/rootns/crates/efs/src/path.rs:257-273 | a canonical path has the same components, and canonicalising it again changes nothing |
| `Path.CanonicalSpells` | drivers/rootns/crates/efs/src/path.rs:257-273 | the canonical path is the text of the components with single slashes between them, and one at the end exactly if the path had one |
| `Path.CanonicalUnique` | drivers/rootns/crates/efs/src/path.rs:257-273 | paths with equal components that agree on ending in a slash have the same canonical path |
| `Path.CanonicalSlashes` | drivers/rootns/crates/efs/src/path.rs:257-273 | no two neighbouring slashes, except at the start exactly when the path starts with two slashes and not a third |
| `Path.CollapsePieces` | drivers/rootns/crates/efs/src/path.rs:257-273 | collapsing runs of slashes changes no piece |
| `Path.JoinConcatenates` | drivers/rootns/crates/efs/src/path.rs:311-326 | joining with a relative path concatenates the components; an absolute one replaces them |
| `Path.Reread` | drivers/rootns/crates/efs/src/path.rs:594-614 | the start component and what follows it are the components of the text |
| `Path.RereadPart` | drivers/rootns/crates/efs/src/path.rs:838-852 | the text between the trimmed cursors has exactly the components not yet yielded |
| `Path.RootFirst` | drivers/rootns/crates/efs/src/path.rs:594-614 | there always is a component, and only the first can be a root |
| `Path.Components.constructor` | drivers/rootns/crates/efs/src/path.rs:594-614 | starts with the components of the path left to yield |
| `Path.Components.Next` | drivers/rootns/crates/efs/src/path.rs:712-748 | yields the first component left and takes it off; nothing exactly when none is left; terminates |
| `Path.Components.NextBack` | drivers/rootns/crates/efs/src/path.rs:788-824 | yields the last component left and takes it off; nothing exactly when none is left; terminates |
| `Path.Components.TrimLeft` | drivers/rootns/crates/efs/src/path.rs:617-625 | drops leading slashes and no component |
| `Path.Components.TrimRight` | drivers/rootns/crates/efs/src/path.rs:628-636 | drops trailing slashes and no component |
| `Path.Components.ToPath` | drivers/rootns/crates/efs/src/path.rs:838-852 | a path with exactly the components left |
| `Path.Interleave` | drivers/rootns/crates/efs/src/path.rs:709-825 | any interleaving of the two ends splits one list: front yields, rest, back yields; both ends stop together |
| `Path.Parent` | drivers/rootns/crates/efs/src/path.rs:362-374 | the path without its last component; none exactly when it has only one |
| `Sched.StepIff` | kernel/src/task/sched.rs:57-183 | in every good state a call keeps the invariant if and only if it is allowed |
| `Sched.StartIff` | kernel/src/task/mod.rs:242-254 | for starting |
| `Sched.CallEffect` | kernel/src/task/mod.rs:242-316 | what each call makes of the one it names: the state it gets and the queue it is last on, or off; a start of any task but a created or stopped one, and a wake-up of any but a blocked one, change nothing |
| `Sched.CallFrame` | kernel/src/task/mod.rs:242-316 | a call leaves the CPU, the other tasks' states and their order on every queue alone |
| `Sched.BlockIff` | kernel/src/task/mod.rs:257-271 | for blocking |
| `Sched.UnblockIff` | kernel/src/task/mod.rs:274-286 | for waking up |
| `Sched.StopIff` | kernel/src/task/mod.rs:289-298 | for stopping |
| `Sched.ExitIff` | kernel/src/task/mod.rs:301-316 | for exiting |
| `Sched.ResumeIff` | kernel/src/task/sched.rs:135-144 | for resuming |
| `Sched.ScheduleKeeps` | kernel/src/task/sched.rs:147-183 | a schedule keeps the invariant, never needs the idle fallback, and picks one whose state was Ready |
| `Sched.RunKeeps` | kernel/src/task/sched.rs:57-183 | in every run of allowed calls nothing is queued twice or on two queues, nothing on the CPU is in the ready queue, and idle is on the CPU or ready exactly once |
| `Sched.BootOk` | kernel/src/task/sched.rs:38-41 | the state after boot is good |
| `Sched.EarlyWakeUp` | kernel/src/task/sched.rs:106-115 | an early wake-up leads to a double entry in the ready queue |
| `Sched.ExitFinal` | kernel/src/task/mod.rs:301-316 | over every later run: exit is final if and only if it did not happen on the CPU and nobody stops, blocks or resumes it afterwards |
| `Sched.ExitUndone` | kernel/src/task/mod.rs:289-316 | a run for each way back: an exited task that is stopped, and one that exited on the CPU, are started again |
| `Sched.ScheduleAdvances` | kernel/src/task/sched.rs:147-183 | a schedule runs a ready one or moves it forward |
| `Sched.ScheduleEffect` | kernel/src/task/sched.rs:147-183 | a task that can go on joins the back of the ready queue, the first of the queue gets the CPU and is Running; all else stays |
| `Sched.CallKeepsPlace` | kernel/src/task/sched.rs:57-144 | calls about others never move it back |
| `Sched.NoStarvation` | kernel/src/task/sched.rs:57-183 | at index k of the ready queue, and not named by any call, it is on the CPU within k + 1 schedules |
| `Sched.Scheduler.SetIdleTask` | kernel/src/task/sched.rs:38-41 | idle is on the CPU; on a scheduler that has queued nothing this is a good state to run from |
| `Sched.Scheduler.GetCurrentTask` | kernel/src/task/sched.rs:44-46 | nothing exactly when neither a current nor an idle task is set; in a good state a known task that is not queued to run |
| `Sched.Scheduler.Position` | kernel/src/task/sched.rs:186-201 | the first position, or none exactly when absent |
| `Sched.Scheduler.RemoveFromAllQueues` | kernel/src/task/sched.rs:186-201 | one occurrence leaves each queue |
| `Sched.Scheduler.AddTask` | kernel/src/task/sched.rs:57-64 | refines the step |
| `Sched.Scheduler.RemoveTask` | kernel/src/task/sched.rs:67-77 | refines the step |
| `Sched.Scheduler.BlockTask` | kernel/src/task/sched.rs:80-103 | refines the step |
| `Sched.Scheduler.UnblockTask` | kernel/src/task/sched.rs:106-115 | refines the step |
| `Sched.Scheduler.StopTask` | kernel/src/task/sched.rs:118-132 | refines the step |
| `Sched.Scheduler.ResumeTask` | kernel/src/task/sched.rs:135-144 | refines the step |
| `Sched.Scheduler.Schedule` | kernel/src/task/sched.rs:147-183 | refines the step and returns the new current |
| `Sched.Scheduler.Perform` | kernel/src/task/mod.rs:242-316 | the guarded wrappers refine the steps of the state machine |
| `Handles.TakenMoves` | kernel/src/object/handle.rs:150-170 | transferring removes exactly the listed handles and yields as many of each capability as the table loses |
| `Handles.TakenCount` | kernel/src/object/handle.rs:150-170 | each distinct listed handle yields exactly one capability |
| `Handles.TakenInOrder` | kernel/src/object/handle.rs:150-170 | distinct handles that are there yield their capabilities in the order listed |
| `Handles.ReceivedAdds` | kernel/src/object/handle.rs:178-183 | receiving adds exactly the given capabilities under the next handle values and changes no other entry |
| `Handles.Insertion` | kernel/src/object/handle.rs:83-88 | an insertion adds one capability under a handle value not in use |
| `Handles.Removal` | kernel/src/object/handle.rs:116-118 | a removal takes exactly one capability away |
| `Handles.HandleTable.Insert` | kernel/src/object/handle.rs:83-88 | the handle value was never given out before |
| `Handles.HandleTable.Remove` | kernel/src/object/handle.rs:116-118 | removes the entry and returns it, if there |
| `Handles.HandleTable.Duplicate` | kernel/src/object/handle.rs:121-137 | needs the right to duplicate; the copy has only rights of both the original and the request |
| `Handles.HandleTable.Transfer` | kernel/src/object/handle.rs:140-147 | needs the right to transfer; the entry leaves the table |
| `Handles.HandleTable.TransferMany` | kernel/src/object/handle.rs:150-170 | moves every distinct listed handle or changes nothing, the latter exactly when one is missing or lacks the right |
| `Handles.HandleTable.ReceiveMany` | kernel/src/object/handle.rs:178-183 | fresh handle values in order; exactly these become issued |
| `Channels.StepKeeps` | kernel/src/object/channel.rs:111-251 | every step at an end keeps: arrived = received + queued, queue at most 64, readable exactly when not empty |
| `Channels.RunKeeps` | kernel/src/object/channel.rs:111-251 | so does every run |
| `Channels.DrainsInOrder` | kernel/src/object/channel.rs:197-223 | receiving n times yields the first n queued messages in order |
| `Channels.QueuedOutlivesPeer` | kernel/src/object/channel.rs:197-251 | after the other end closes, all queued messages are received first |
| `Channels.StepCalls` | kernel/src/object/channel.rs:138-170 | one step calls each of a key's readability observers, however many, persistent or one-shot, if the queue becomes non-empty, and none otherwise; the one-shot ones are then gone |
| `Channels.CalledOncePerEdge` | kernel/src/object/channel.rs:138-170 | in every run that leaves a key's registrations alone, each persistent one is called once for each time the queue becomes non-empty, each one-shot one the first time only |
| `Channels.OnceGone` | kernel/src/object/channel.rs:151-154 | one-shot observers that were called are gone |
| `Channels.SignalsMean` | kernel/src/object/channel.rs:112-251 | over every run: closed, unlinked and PEER_CLOSED exactly after the closes that cause them; WRITABLE is never taken back; other signals stay |
| `Channels.RoomAgain` | kernel/src/object/channel.rs:207-213 | a receive at the other end makes this one writable exactly if its own queue has room; no observer is called |
| `Channels.ClosureCalls` | kernel/src/object/channel.rs:226-251 | when the other end closes each observer of that is called once; observers and messages stay |
| `Channels.RegistrationCalls` | kernel/src/object/channel.rs:293-311 | registering calls the observer once, with the signals that are up, exactly if one of its signals is; a one-shot one is then not kept, any other one is |
| `Channels.Channel.CreatePair` | kernel/src/object/channel.rs:80-109 | two fresh ends linked to each other |
| `Channels.Channel.Send` | kernel/src/object/channel.rs:112-170 | fails exactly when the other end is gone or full; otherwise the message arrives there; links stay symmetric |
| `Channels.Channel.TryRecv` | kernel/src/object/channel.rs:197-223 | the oldest message if there is one; otherwise empty or closed by whether the other end is there |
| `Channels.Channel.Close` | kernel/src/object/channel.rs:226-251 | both links go away, and the other end is told |
| `Channels.Channel.AddSignalObserver` | kernel/src/object/channel.rs:293-311 | fires at once if a signal is already there; a one-shot observer is then not kept |
| `Channels.Channel.RemoveSignalObserver` | kernel/src/object/channel.rs:313-315 | no observer with the key is left, and every other key has the same observers in the same order |
| `Channels.WithoutKey` | kernel/src/object/channel.rs:313-315 | the same of the list of observers |
| `Channels.RemovedSilent` | kernel/src/object/channel.rs:138-170 | in every run after a removal the key's callback is not called again until it is registered again |
| `Ipc.RightsNeverGrow` | kernel/src/syscall/object.rs:15-449 | over every run of calls by any processes no table entry and no capability in flight has rights beyond those its object was created with |
| `Ipc.HandlesNeverReused` | kernel/src/object/handle.rs:83-88 | over every run a handle value that was given out names the same capability as before or none, and the table's counter never decreases |
| `Ipc.RunConserves` | kernel/src/syscall/object.rs:15-449 | over every run the copies of each capability are those at the start, plus those made by creating and duplicating, minus those closed, lost, or dropped with an end |
| `Ipc.StepConserves` | kernel/src/syscall/object.rs:15-449 | the same for each call |
| `Ipc.InOrder` | kernel/src/syscall/object.rs:242-449 | over every run the messages sent to an end leave it in the order they came, none skipped and none twice |
| `Ipc.StepOk` | kernel/src/syscall/object.rs:15-449 | every call keeps the invariant of tables, queues and links |
| `Ipc.SendOk` | kernel/src/syscall/object.rs:242-306 | for send |
| `Ipc.TryRecvOk` | kernel/src/syscall/object.rs:381-449 | for receive |
| `Ipc.CloseHandleOk` | kernel/src/syscall/object.rs:15-24 | for closing a handle |
| `Ipc.DuplicateHandleOk` | kernel/src/syscall/object.rs:27-40 | for duplicating a handle |
| `Ipc.CreateChannelOk` | kernel/src/syscall/object.rs:212-239 | for creating a channel |
| `Ipc.DropEndOk` | kernel/src/object/channel.rs:269-273 | for an end whose last reference is gone |
| `Ipc.SendConserves` | kernel/src/syscall/object.rs:242-306 | a send keeps the count of every capability over all tables and queues, less what it loses |
| `Ipc.WhenSendLoses` | kernel/src/syscall/object.rs:275-303 | it loses capabilities if and only if the sender may send and transfer what it lists, lists something, and the other end is gone or its queue full |
| `Ipc.SendCanLose` | kernel/src/syscall/object.rs:275-303 | a run from the empty system to such a send |
| `Ipc.TryRecvConserves` | kernel/src/syscall/object.rs:381-449 | a receive keeps the count of every capability, less what it loses |
| `Ipc.WhenRecvLoses` | kernel/src/syscall/object.rs:418-436 | it loses capabilities if and only if it takes a message that carries some and leaves no room for handles |
| `Ipc.RecvCanLose` | kernel/src/syscall/object.rs:418-436 | a run from the empty system to such a receive |
| `Ipc.SendArrives` | kernel/src/syscall/object.rs:242-306 | a successful send appends the message, with the capabilities taken from the sender, to the queue of the end linked to the one the handle names, and changes no other end; distinct handles travel in the order listed |
| `Ipc.SendErrors` | kernel/src/syscall/object.rs:242-306 | which error a send gives, each if and only if: by the rights and targets of the caller's handles, by the link and by the other queue's length; an error found before handles are taken changes nothing |
| `Ipc.RecvErrors` | kernel/src/syscall/object.rs:381-449 | which error a receive gives, each if and only if; none changes anything |
| `Ipc.DuplicateReports` | kernel/src/syscall/object.rs:27-40 | succeeds exactly with the right to duplicate, adding one new handle with the rights of both the original and the request |
| `Ipc.CloseReports` | kernel/src/syscall/object.rs:15-24 | succeeds exactly on a handle of the caller, which alone goes |
| `Ipc.CreateReports` | kernel/src/syscall/object.rs:212-239 | two new handles of empty ends that are linked to each other, with the rights to read, write, wait, duplicate and transfer |
| `Ipc.TryRecvDelivers` | kernel/src/syscall/object.rs:381-449 | a successful receive with room yields as much of the oldest message's data as fits, its full length, and handles that name its capabilities in order |
| `Ipc.TryRecvData` | kernel/src/syscall/object.rs:381-449 | without room for handles the data still arrives, no handle is made and the capabilities of the message are lost |
| `Ipc.SendThenReceive` | kernel/src/syscall/object.rs:242-449 | after a send and any further calls by anyone, once as many messages have left as were queued before it, the next receive brings its data and exactly the capabilities that left the sender |
| `Syscalls.Kernel.NewProcess` | kernel/src/object/process.rs:113 | a new handle table refines the step that adds a process |
| `Syscalls.Kernel.DropLast` | kernel/src/object/channel.rs:269-273 | closing an end that nothing refers to refines the step that drops it |
| `Syscalls.Kernel.SysHandleClose` | kernel/src/syscall/object.rs:15-24 | the call on the handle-table object refines the step; it succeeds exactly on a handle of the caller, and an error changes nothing |
| `Syscalls.Kernel.SysHandleDuplicate` | kernel/src/syscall/object.rs:27-40 | the call on the handle-table object refines the step; it succeeds exactly with the right to duplicate, and adds one new handle with no more rights than the original and the request |
| `Syscalls.Kernel.SysChannelCreate` | kernel/src/syscall/object.rs:212-239 | a new pair of channel objects and two insertions refine the step; an error exactly for a null address or an unknown process; two new handles of linked empty ends |
| `Syscalls.Kernel.SysChannelSend` | kernel/src/syscall/object.rs:242-306 | transferring from the table and sending on the channel refine the step; EBADF exactly without a handle that has WRITE, and then nothing changes; the other errors likewise; counts are kept but for what is lost, and exactly when that is nothing |
| `Syscalls.Kernel.SysChannelTryRecv` | kernel/src/syscall/object.rs:381-449 | receiving from the channel and into the table refine the step; EBADF exactly without a handle that has READ; no error changes anything; counts are kept but for what is lost, and exactly when that is nothing |

## Left out

- Page tables, address-space mapping, TLB handling, the buddy and bump allocators and the page mapper are not part of this model.
- Physical (MMIO) memory objects, and the effect of memory objects through mappings.
- Blocking paths (`Channel::recv`, `Port::wait`, wait queues, futexes), lock ordering and wake-up liveness: calls are atomic steps.
- Ports and port bindings; `signal_set` and `signal_clear` on channels, which would let a caller raise or clear READABLE by hand.
- Path equality, `Components::size_hint`, `file_name`, and the check that a path holds no NUL character: the model's paths are non-empty texts, and the code refuses others when a path is made.
- UTF-8: path texts are sequences of characters; the separators and dots are single bytes in the code.
- NVMe command-id uniqueness under out-of-order completion, `wait_completion`, doorbell register layout, namespaces and the controller set-up.
- PRP lists longer than one page are shown to be wrong, not repaired.
- The rest of AML: namespace, methods, packages, control flow, locks, `Divide`, the one-operand operators, native I/O on real regions.
- AmlField.DoFieldWrite: an update rule of value 3, which the code declares unreachable, is excluded where a partial access asks for it.
- Overflow of sizes, addresses, handle values and object numbers past their machine widths.
- `Vmo.Kernel.ReadAt`, `Vmo.Kernel.WriteAt` and the syscalls take identifiers instead of references; objects are kept in one numbered store.
- Vmo.Kernel.GetPage: physical memory objects, which the code answers from a base address, are not modelled.
- Vmo.Kernel.Drop: is only callable when no clone refers to the object, because each clone holds a reference to its parent.
- Sched.Scheduler.Schedule: the code panics with nothing ready and no idle task; the model requires one or the other.
- NvmePrp.WhenSegmentsDecode: lists that span more than one page, and a list inside the data it describes, are not covered.
- Ring.RingBuffer.FreeDesc: an index beyond the table is excluded; the code does not check for one.
- Name server, bootstrap, namespace mounts, driver client and server framework, buffer pools, ELF loading, architecture code, interrupts, framebuffer, loggers and PCI scanning.
