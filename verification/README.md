# Verified core of Mach4's bootstrap task and C threads

This project models the parts of Mach4 that keep state across operations and threads, and
proves what they are there for.

* **Default pager storage** (`partition.dfy`, `pagermap.dfy`, `ownership.dfy`, `history.dfy`,
  `storage_model.dfy`, `storage.dfy`, `out_of_reach.dfy`). Partitions with bitmaps, one- and two-level block maps,
  growth, release, spill, deletion and evacuation. Set bits and map entries correspond one to
  one in every state, and the whole behaves as a plain map from (object, page) to bytes.
* **Request protocol of the default pager** (`protocol.dfy`). One thread for each request
  message, interleaved in every way the object's lock allows, with sleeping and broadcasts.
* **Protocol and storage together** (`paged_object.dfy`, `paged_service.dfy`). The handlers of an
  object read and write pages where the protocol lets them, and every data_request is answered as
  if the object's messages had been handled one at a time, in order.
* **Scheduler core of C threads** (`scheduler.dfy`, `scheduler_runs.dfy`, `ready_queue.dfy`).
  Blocking, waking and switching of contexts by kernel threads that interleave, the order in which
  ready cprocs are served and when idle kernel threads are sent for, with `cancelled_wait.dfy` for
  one run of interest, and `port_slots.dfy` for the slots that limit receivers on a port.
* **Boot file reader** (`indirect_tree.dfy`, `volume.dfy`, `reader.dfy`, `block_layout.dfy`,
  `file_direct.dfy`, `pathwalk.dfy`, `path_laws.dfy`). The cached walk of indirect blocks, buffered
  reads, where the bytes of a file lie on a disk written by the file system, the flattened block map
  used for paging files, and path resolution with symbolic links, against walks over the directory
  graph. FFS and ext2 share one model;
  an ext2 block is its own fragment.
* **Allocators** (`kalloc.dfy`, `malloc.dfy`). Free lists whose links are kept in the free
  blocks, over space that other threads may grow at the same time.

`sums.dfy` holds sums over threads, which count readers, messages, slots and references;
`free_lists.dfy` holds queues without repetition and lists linked through memory.

The step systems (`protocol.dfy`, `scheduler.dfy`, `port_slots.dfy`) share one form: a local
function says what a step does to the thread that makes it, a predicate says what that move
keeps, and one lemma carries each predicate to the whole state. Main results are then stated
for every state of every run.

## What the code does that one might not expect

* `pager_move_page` makes one read and one write. A move keeps a page's bytes on all pages if
  and only if one transfer covers a page (`StorageModel.MoveIntact`). Where it does not, the
  moved page holds the mixture the code leaves, which the history records as garbled.
* A device error in `default_write` leaves the page present with whatever was transferred.
* `create_paging_partition` does not check that the slot it takes fits the 8-bit index of a map
  entry, and `choose_partition` cuts the slot off to 8 bits. No page is ever lost by that
  (`Storage.PagerStorage.CreatePartition`), but the room of such a partition is out of reach. A
  write of a new page is refused exactly when no partition with an index of its own has room
  (`Storage.PagerStorage.DefaultWrite`), so it can be refused although there is room if and only
  if a slot of 255 or more holds a partition that has blocks and stays (`OutOfReach.ReachedExactly`); a run in
  which it is refused is `OutOfReach.RefusedWrite`. A move then panics if and only if the first
  candidate's cut-off index names a partition that gives no block
  (`Storage.PagerStorage.MovePage`), which never happens while all slots are below 255
  (`StorageModel.NamedRight`) and can happen otherwise (`OutOfReach.MovesPanic`).
* After one failed write the object's data_requests are all refused. This is what keeps a request
  from ever returning bytes older than a lost write (`PagedObject.ServedInOrder`).
* `cthread_msg_busy` does not look at which port its thread is busy with. It keeps the slots
  straight if and only if it is called for that port (`PortSlots.BusyExact`); a run in which a
  slot is lost is `PortSlots.SlotCanBeLost`.
* `wait_count` is tested for being nonzero, not positive. It is exactly the idle kernel threads
  less the wakeup messages under way, so it is negative if and only if there are more such
  messages than idle kernel threads (`SchedulerRuns.CountersTrue`); a run that makes it -1 is
  `CancelledWait.WaitCountNegative`.
* `cproc_ready` sends no wakeup message for a caller that is about to block in `condition_wait`.
  That is the only step after which a kernel thread can idle, unsent for, while more cprocs are ready
  than messages are under way, and it is so exactly when a message would have been sent
  (`ReadyQueue.ServedExactly`); without condition waits it never happens (`ReadyQueue.NoneIdle`).
* The level table of `mount_fs` is multiplied up in an int. Every block of a file's map is found
  if and only if its last entry fits (`Volumes.ReachExact`). With 8192-byte blocks that entry is
  0 and the triple indirect tree is never found, but no byte with a 32-bit offset lies there
  (`Volumes.LargestBlocks`).
* `page_read_file_direct` and `page_write_file_direct` bound a transfer by the block size but not
  by what is left of the block. A transfer is right on every disk if and only if it starts a block
  or fits the rest of one (`FileDirects.TransferExact`, `FileDirects.WriteExact`); page-aligned
  transfers do (`FileDirects.AlignedFits`).
* A path component passes the length check if and only if it has at most 256 characters, one
  more than `MAXNAMLEN` (`PathWalk.NamesThatPass`, `PathWalk.LongNamePasses`).
* A path that ends in a separator names nothing, on any file system without empty names
  (`PathWalk.TrailingSeparator`). A link's relative target is taken from the link's directory on
  every file system if and only if it is not empty or nothing follows it; an empty one in front of
  more stands for the root (`PathWalk.EmptyTarget`).

## Model

| member | source | states |
|---|---|---|
| Partitions.NewPartition | mach4/bootstrap/default_pager.c:164-189 | a new partition is consistent: all its blocks are free and every bit is clear, also in the last, partly used bitmap word |
| Partitions.PartitionFits | mach4/bootstrap/default_pager.c:176-183 | a partition size in bytes that fits an unsigned word gives block numbers that fit the 24 bits of a map entry |
| Partitions.FirstClear | mach4/bootstrap/default_pager.c:298-332 | with a block free, the search ends at the lowest clear bit, which lies below the partition's size although tail bits are clear; neither panic is reached |
| Partitions.LowestClear | mach4/bootstrap/default_pager.c:313-322 | the lowest clear bit of a bitmap word that is not full |
| Partitions.FreeBlockExists | mach4/bootstrap/default_pager.c:298-311 | the free count is positive if and only if some bit below the size is clear |
| Partitions.TakeValid | mach4/bootstrap/default_pager.c:324-325 | setting a clear bit and counting it keeps free count and bitmap in agreement |
| Partitions.GiveValid | mach4/bootstrap/default_pager.c:338-365 | clearing a set bit and uncounting it keeps free count and bitmap in agreement |
| Partitions.ReadPage | mach4/bootstrap/default_pager.c:1322-1354 | however many bytes each transfer moves, a read that meets no device error returns exactly the block's bytes, and on healthy devices it meets none |
| Partitions.WritePage | mach4/bootstrap/default_pager.c:1411-1432 | however many bytes each transfer moves, a write that meets no error leaves exactly the data in the block and no other block changes; after an error only this block may differ |
| PagerMap.NewPager | mach4/bootstrap/default_pager.c:452-503 | a new map, of one level or two, reads as empty everywhere and has the smallest power of two of pages that covers the request, or the next multiple of 64 if the request is too big for doubling |
| PagerMap.TargetSize | mach4/bootstrap/default_pager.c:636-650 | the new size is the first doubling of the old one that covers the request, or the next multiple of 64 if the request is too big for that; any size above 64 is a multiple of 64, so second-level indexing is in bounds |
| PagerMap.Extend | mach4/bootstrap/default_pager.c:620-767 | in all three cases the flattened map is the old one followed by empty entries, and one call covers the page asked for with the size that doubling or rounding gives |
| PagerMap.GrowTo | mach4/bootstrap/default_pager.c:1050-1069 | growing until a page is reached ends, adds only empty entries, and extends the map once or not at all |
| PagerMap.ReadOffset | mach4/bootstrap/default_pager.c:774-814 | a lookup in the one- or two-level map returns the entry of the flat sequence |
| PagerMap.StoreEntry | mach4/bootstrap/default_pager.c:1071-1112 | storing an entry updates the flat sequence at that page and nowhere else, making the second-level map if it is missing |
| Ownership.Assign | mach4/bootstrap/default_pager.c:1114-1155 | giving a page a newly taken block keeps set bits and map entries in one-to-one correspondence and every other page as it was |
| Ownership.Release | mach4/bootstrap/default_pager.c:820-844 | taking an entry out of a map and clearing its bit keeps the correspondence and removes exactly that page |
| Ownership.Move | mach4/bootstrap/default_pager.c:853-910 | exchanging a page's block for another keeps the correspondence; only that page can change, to what was carried over |
| Ownership.Grow | mach4/bootstrap/default_pager.c:620-767 | growing a map changes no page of any object |
| Ownership.DropObject | mach4/bootstrap/default_pager.c:1170-1216 | once an object's blocks are freed it can go, and the other objects' pages are what they were |
| Ownership.DropPartition | mach4/bootstrap/default_pager.c:1607-1620 | a partition that no entry names can go without losing a page |
| Ownership.UsedCountsPages | mach4/bootstrap/default_pager.c:276-365 | the set bits of a partition are as many as the pages that objects have there |
| History.LastWriteWins | mach4/bootstrap/default_pager.c:1291-1434 | after any run a page holds the bytes of the last event that wrote it, and is absent if and only if there is none or it was released or deleted since |
| History.GarbledKeeps | mach4/bootstrap/default_pager.c:883-900 | a run that goes on with nothing but short moves of pages that are there keeps the same pages, and all others hold the same bytes |
| StorageModel.LeftOnlyKeeps | mach4/bootstrap/default_pager.c:1225-1273 | while pages leave a partition, every page of every object stays present, and only pages that lay in that partition can hold other bytes |
| StorageModel.ReadsLastWrite | mach4/bootstrap/default_pager.c:1010-1164 | in every reachable state a page has a live block if and only if the last event touching it wrote it, and the block holds those bytes |
| StorageModel.FreeCountsPages | mach4/bootstrap/default_pager.c:276-365 | in every reachable state a partition's size is its free count plus the pages that objects have in it |
| StorageModel.MoveIntact | mach4/bootstrap/default_pager.c:883-900 | one read and one write move every page intact if and only if one transfer covers a page |
| Storage.PagerStorage.constructor | mach4/bootstrap/default_pager.c:153-157 | storage without partitions and objects satisfies the invariant with an empty history |
| Storage.PagerStorage.ChoosePartition | mach4/bootstrap/default_pager.c:231-270 | the slot, cut off to 8 bits, of the first partition, other than the current one, that is live, stays, and has room; none if there is none |
| StorageModel.ChosenNamed | mach4/bootstrap/default_pager.c:231-270 | an index chosen is that of a partition with room, unless no partition with an index of its own has room; while all slots are below 255 it always is |
| StorageModel.ChosenIsOne | mach4/bootstrap/default_pager.c:231-270 | one index is chosen for a request, never one of several |
| StorageModel.NotGiven | mach4/bootstrap/default_pager.c:870-878 | an index is chosen that gives no block only if no other partition with an index of its own has room |
| StorageModel.NamedRight | mach4/bootstrap/default_pager.c:870-878 | while all live partitions are in slots below 255, the index chosen for a move always gives a block |
| StorageModel.WhenMisnamed | mach4/bootstrap/default_pager.c:870-878 | the index chosen for a move gives no block if and only if the first candidate's slot, cut off, names another partition that has none |
| OutOfReach.ReachedExactly | mach4/bootstrap/default_pager.c:231-270 | new pages are never refused while there is room, however full the partitions of a list are, if and only if no slot of 255 or more holds a partition that has blocks and stays |
| OutOfReach.MovesPanic | mach4/bootstrap/default_pager.c:870-878 | otherwise, when the first such slot's index names a partition and those with indices of their own are full, every move of a page panics |
| OutOfReach.BeyondFree | mach4/bootstrap/default_pager.c:164-223 | no block of a partition in a slot of 255 or more is ever used |
| OutOfReach.RefusedWrite | mach4/bootstrap/default_pager.c:1378-1434 | a run with 256 partitions of no blocks and one with room, after which a write of a new page is refused for lack of room |
| Storage.PagerStorage.AllocPage | mach4/bootstrap/default_pager.c:276-333 | the lowest free block of the partition, or none exactly when the index is invalid or the partition is missing, going away or full |
| Storage.PagerStorage.MovePage | mach4/bootstrap/default_pager.c:853-910 | the page is in the lowest free block of the partition chosen for a page, which stays, and its old block is free; for lack of room it fails only if no other partition with an index of its own has room, and then nothing changed; while devices do not fail it panics if and only if the first candidate's cut-off index names a partition that gives no block |
| Storage.PagerStorage.WriteOffset | mach4/bootstrap/default_pager.c:1010-1164 | the block of a page: the one it has; or the lowest free block of the object's partition, if that gives one; or the lowest of the partition chosen for a page, which becomes the object's; an object without a partition is first put on the one with room for all of it, or else for a page; the map is extended just as far as the page needs; for an absent page it fails if and only if no partition with an index of its own has room, and then no block changes hands |
| Storage.PagerStorage.DefaultWrite | mach4/bootstrap/default_pager.c:1378-1434 | on success the page holds the data, in the block that the previous row says, and no other page changed; an error is either lack of room for an absent page, which comes about if and only if no partition with an index of its own has room and changes nothing, or a device error, after which only this page may differ |
| Storage.PagerStorage.DefaultRead | mach4/bootstrap/default_pager.c:1291-1376 | the bytes last written; a panic if and only if the page is beyond the object's map; absent if and only if it is within and holds none; an error only if a device fails; a release removes exactly this page |
| Storage.PagerStorage.HasPage | mach4/bootstrap/default_pager.c:1436-1442 | true if and only if the page was written and not released or deleted since |
| Storage.PagerStorage.CreateObject | mach4/bootstrap/default_pager.c:1826-1858 | a new object is empty, has the map size that the size asked for gives, and has the index of the first partition with room for it, or else of the first that stays; every page of the others is kept |
| Storage.PagerStorage.FreeBlocks | mach4/bootstrap/default_pager.c:1170-1216 | releasing an object's pages in turn frees each of its blocks and no other |
| Storage.PagerStorage.DeleteObject | mach4/bootstrap/default_pager.c:2135-2190 | exactly the object's pages go; the blocks it had are free again |
| Storage.PagerStorage.Realloc | mach4/bootstrap/default_pager.c:1225-1273 | if it succeeds the object's map no longer names the partition, and its current partition is the first that stays, which is the old one only if no other has an index of its own; it stops only if no other such partition has room; with whole-page transfers no page changes, otherwise only this object's pages that lay in the partition can, and none appears or goes; it does not panic while devices do not fail and all slots are below 255 |
| Storage.PagerStorage.DestroyPartition | mach4/bootstrap/default_pager.c:1542-1630 | success: no object's map names the index, a current partition does only if none with an index of its own is left, and the partition is gone; failure: it stays, and no other partition with an index of its own has room; in both cases all contents are unchanged with whole-page transfers, although pages have moved, and otherwise the same pages are present and only those that lay in the partition can differ; no panic is reached while devices do not fail and all slots are below 255 |
| Storage.PagerStorage.CreatePartition | mach4/bootstrap/default_pager.c:164-223 | the new, empty partition takes the first free slot of a list that is doubled, from two on, when full; the invariant and all pages are kept whatever the slot is |
| RequestProtocol.OrderedStep | mach4/bootstrap/default_pager.c:1650-1674 | every step keeps: a thread is past the gate if and only if its number is below the object's, and only the thread whose number it is can be between gate and increment |
| RequestProtocol.CountedStep | mach4/bootstrap/default_pager.c:1676-1748 | every step keeps: the reader and writer counts are the numbers of threads that have started and not finished |
| RequestProtocol.ReadsStep | mach4/bootstrap/default_pager.c:2236-2246 | every step keeps: from when a data_request begins to read, each data_write with a smaller number has finished |
| RequestProtocol.DrainedStep | mach4/bootstrap/default_pager.c:2074-2095 | every step keeps: what a terminate has waited for stays so while it waits, unlocked, for the next thing |
| RequestProtocol.AwaitedStep | mach4/bootstrap/default_pager.c:1668-1770 | every step keeps: a thread that sleeps although its condition has come about has a broadcast coming to it |
| RequestProtocol.RefsStep | mach4/bootstrap/default_pager.c:1867-1893 | every step keeps: request references stay between 1 and the limit while the object is active, and name references are 0 only while a listing renews them |
| RequestProtocol.BalancedStep | mach4/bootstrap/default_pager.c:3046-3062 | every step keeps: the send references the task holds for each port are those counted, those of messages not yet counted, and those taken out and not yet given back |
| RequestProtocol.EveryRun | mach4/bootstrap/default_pager.c:1945-2002 | an object made with its ports by memory_object_create, and one made without by default_pager_object_create (lines 2855-2896) that gets them from an init, satisfy all of the above in every state of every run |
| RequestProtocol.NoStaleReads | mach4/bootstrap/default_pager.c:1633-1642 | in every run, a thread through the gate finds all smaller numbers past their increment, and a data_request reads only after every data_write or data_initialize with a smaller number has finished |
| RequestProtocol.WritesInOrder | mach4/bootstrap/default_pager.c:1633-1642 | in every run, a data_write has finished before a later one passes the gate if a data_request lies between them, so writes of one page keep their order where the kernel asks for a page before it writes it again |
| RequestProtocol.CleanUp | mach4/bootstrap/default_pager.c:2077-2105 | when terminate cleans up, no thread reads or writes and the name has references, all at once |
| RequestProtocol.NoPanic | mach4/bootstrap/default_pager.c:1882-1890 | the kernel always holds the references a step gives back; init finds no ports, every other request finds the ports it was sent for |
| RequestProtocol.NothingHeld | mach4/bootstrap/default_pager.c:2098-2125 | after a terminate is done the task holds no send reference for its request and name ports, in every later state |
| RequestProtocol.TurnEnabled | mach4/bootstrap/default_pager.c:1653-1770 | while the request whose turn it is has not passed, some step is enabled |
| RequestProtocol.QuietIsDone | mach4/bootstrap/default_pager.c:1653-1770 | when nothing can happen, every request received is done: no deadlock and no lost wake-up |
| RequestProtocol.EveryRequestCompletes | mach4/bootstrap/default_pager.c:1653-1770 | without new messages a run is bounded in length and can end only with every request done |
| RequestProtocol.InvRun | mach4/bootstrap/default_pager.c:1633-1770 | the invariants hold together in every state that can follow one in which they hold |
| PagedObject.EarlierFirst | mach4/bootstrap/default_pager.c:1633-1642 | in every run, what a message does to a page is done before a later message about that page gets under way, although writes do not wait for reads or for each other |
| PagedObject.FetchRight | mach4/bootstrap/default_pager.c:2212-2304 | a data_request that found no errors as it began finds in its page what handling the earlier messages one at a time would leave |
| PagedObject.InvStep | mach4/bootstrap/default_pager.c:2212-2421 | every step of the protocol, of the handlers and of other objects keeps: each page holds what the messages that have had their effect on it leave in order, and every answer given is the one that order gives |
| PagedObject.ServedInOrder | mach4/bootstrap/default_pager.c:2212-2421 | in every run, where the kernel sends nothing about a page it waits for and asks for a page before it writes it again, a data_request answered with bytes or with absence gets what handling all earlier messages one at a time would leave, and no earlier write has failed; one that is refused is so because a write has failed |
| PagedObject.PageServed | mach4/bootstrap/default_pager.c:2309-2421 | for all messages, what handling them in order leaves in a page is the bytes of the last data_write of it, whatever data_initialize brought since; and where a request with write access came after that, or where it was never written and not there before, the bytes of the first data_initialize since, or none |
| PagedService.Service.HandlePage | mach4/bootstrap/default_pager.c:2336-2415 | a data_initialize of a page that is there leaves it, and otherwise, as for a data_write, the page holds the message's bytes or an error is counted; what is done to the storage is the step of the run |
| PagedService.Service.HandleRequest | mach4/bootstrap/default_pager.c:2236-2299 | what default_read returns for a data_request, whatever other objects do to the storage, is what handling the earlier messages one at a time would leave; it is refused if and only if there had been errors |
| Scheduler.FitAct | mach4/libthreads/cprocs.c:261-497 | every step keeps: a blocking cproc is either unwoken and marked switching or blocked, or its block has been cancelled and nobody holds it; times woken exceed times returned by one exactly while a wake-up is under way |
| Scheduler.LinkAct | mach4/libthreads/cprocs.c:261-497 | every step puts a context on a queue, takes it off or hands it on only as the one holder of it |
| Scheduler.InvStep | mach4/libthreads/cprocs.c:261-635 | every step keeps: each queue holds exactly the contexts linked to it, once, and each context is held by at most one other |
| SchedulerRuns.SwitchSafe | mach4/libthreads/cprocs.c:374-381 | a switch to a cproc or to a wait stack always goes to a context that has been switched away from, whose lock is released, and that no queue or other context knows of |
| SchedulerRuns.WakeupSplits | mach4/libthreads/cprocs.c:278-292 | a waker finds its cproc either still blocking, and cancels that block, or switched away from and blocked, and goes on to queue it; nothing else |
| SchedulerRuns.QueuedOnce | mach4/libthreads/cprocs.c:294-304 | a cproc put on the ready queue was not there before and is there once |
| ReadyQueue.QueuedInOrder | mach4/libthreads/cprocs.c:296-300 | cproc_ready puts a cproc behind all that are ready, or in front of them if it is told to |
| ReadyQueue.PutBackInFront | mach4/libthreads/cprocs.c:452-462 | a cproc taken by one that then need not block goes back in front |
| ReadyQueue.WokenGoesBehind | mach4/libthreads/cprocs.c:294-300 | a cproc that is signalled or new goes behind |
| ReadyQueue.FirstServed | mach4/libthreads/cprocs.c:443-487 | a cproc that blocks, and a kernel thread with a message, take the first ready cproc; with none ready they wait |
| ReadyQueue.YieldsToFirst | mach4/libthreads/cprocs.c:617-634 | a cproc that yields goes behind all that are ready and gives way to the first; with none ready nothing changes |
| ReadyQueue.WaiterFound | mach4/libthreads/cprocs.c:389-415 | an idle kernel thread gets the first free wait stack, or a new one |
| ReadyQueue.SendsExactly | mach4/libthreads/cprocs.c:304-332 | a wakeup message is sent if and only if the waker is not about to block in a condition wait, the ready queue with the woken cproc is longer than the messages under way, and the idle kernel threads are not as many as those |
| ReadyQueue.ServedExactly | mach4/libthreads/cprocs.c:306-332 | every step keeps: no more cprocs are ready, or no more kernel threads idle, than messages are under way; except the shortcut for condition waits, which breaks it exactly when a message would have been sent |
| ReadyQueue.NoneIdle | mach4/libthreads/cprocs.c:294-332 | in every run without condition waits no kernel thread idles, unsent for, while more cprocs are ready than messages are under way |
| SchedulerRuns.WakeupsConserved | mach4/libthreads/cprocs.c:437-495 | in every run a cproc has come back as often as it was woken, or once less, and then it is on its way: running on, ready, or held by a running context; it has come back no more often than it was woken |
| SchedulerRuns.CountedStep | mach4/libthreads/cprocs.c:294-332 | every step keeps both counters equal to queue length and idle kernel threads, each less the messages under way, cancelled blocks included |
| SchedulerRuns.CountersTrue | mach4/libthreads/cprocs.c:97-104 | in every run ready_count and wait_count have those values, and wait_count is negative if and only if more messages are under way than kernel threads idle |
| CancelledWait.WaitCountNegative | mach4/libthreads/cprocs.c:469-487 | a run of two cprocs after which wait_count is -1 |
| SchedulerRuns.Front | mach4/libthreads/cprocs.c:449-495 | following the locks that the holder of a lock spins for ends at a context that can run, so no set of contexts waits for each other's locks, yields included |
| SchedulerRuns.SoundRun | mach4/libthreads/cprocs.c:261-635 | the invariants hold together in every state of every run, with cprocs and waiters created on the way |
| PortSlots.InvStep | mach4/libthreads/cprocs.c:743-857 | every step keeps: slots held are those of busy threads and of threads handed one, at most the maximum, and a thread is on a queue if and only if it waits, whatever the limits are |
| PortSlots.SlotsGiven | mach4/libthreads/cprocs.c:775-840 | a thread that asks for a slot gets one if and only if fewer than the maximum are held, and begins to wait only when it asks and they are not |
| PortSlots.SlotGivenUp | mach4/libthreads/cprocs.c:743-773 | a slot given up goes to the thread that began to wait last if one waits and no more than the minimum are held; otherwise one less is held and no other thread moves |
| PortSlots.BusyExact | mach4/libthreads/cprocs.c:743-773 | cthread_msg_busy keeps that if and only if it is called for the port its thread is busy with |
| PortSlots.SlotCanBeLost | mach4/libthreads/cprocs.c:743-773 | a run of one thread and two ports after which a call for the other port leaves a slot that nobody has |
| PortSlots.SlotsConserved | mach4/libthreads/cprocs.c:743-857 | in every run slots are conserved and within limits, and a thread is kept waiting only while at least the minimum, or the maximum if less, is held |
| IndirectTree.WalkExpand | mach4/bootstrap/ffs_file_io.c:195-267 | walking down a tree of indirect blocks finds the entry of the tree written out in full, and 0 through a hole at any level |
| IndirectTree.ExpandLength | mach4/bootstrap/ffs_file_io.c:138-160 | a tree of so many levels maps the matching power of the addresses in a block |
| FileReader.File.constructor | mach4/bootstrap/ffs_file_io.c:450-477 | the level table holds the powers of the number of addresses in a block, each as an int, and no cache holds anything |
| FileReader.File.ReadInode | mach4/bootstrap/ffs_file_io.c:80-119 | after a new inode is read no buffer of the old one is left |
| FileReader.File.IndirectBlock | mach4/bootstrap/ffs_file_io.c:206-250 | a hit or a miss, with other threads changing the caches while the lock is dropped, gives the disk's data and leaves it in the cache of its level, and the caches stay true to the disk |
| FileReader.File.BlockMap | mach4/bootstrap/ffs_file_io.c:126-286 | the address of every block found is that of the file's map written out in full: direct, single, double and triple indirect; an error if and only if the block is beyond what the level table reaches |
| Volumes.ReachExact | mach4/bootstrap/ffs_file_io.c:465-474 | the level table reaches the whole map if and only if its last power fits an int |
| Volumes.LargestBlocks | mach4/bootstrap/ffs_file_io.c:465-474 | with the largest blocks the triple indirect tree is never found, and no byte with a 32-bit offset lies in it |
| Volumes.MapLength | mach4/bootstrap/ffs_file_io.c:138-160 | a file's map has the direct blocks and the first three powers |
| Volumes.BlockReaches | mach4/bootstrap/fs.h:430-433 | the block of any byte of a file extends beyond that byte, also when it is a fragment, and to the end of the block or of the file |
| Volumes.BlockSplit | mach4/bootstrap/fs.h:398-405 | block number and place in the block are quotient and remainder |
| Volumes.AsIntExact | mach4/bootstrap/ffs_file_io.c:465-474 | a product kept in an int is the one int that differs from it by a multiple of the word range |
| BlockLayout.WordWritten | mach4/bootstrap/ffs_file_io.c:269 | the word at any index of an indirect block is the address written there in four bytes, lowest first |
| BlockLayout.DirectBlock | mach4/bootstrap/ffs_file_io.c:168-173 | a direct block is where the inode says |
| BlockLayout.SingleIndirect | mach4/bootstrap/ffs_file_io.c:195-274 | block 12 + i of a file is at the i-th address that the single indirect block holds |
| BlockLayout.DoubleIndirect | mach4/bootstrap/ffs_file_io.c:195-274 | behind those, block i * n + j is at the j-th address of the block at the i-th address of the double indirect block, n addresses to a block |
| BlockLayout.IndirectBlock | mach4/bootstrap/ffs_file_io.c:195-274 | in each of the three trees a block is where a chain of written indirect blocks says, its number having the indices as digits |
| BlockLayout.IndirectHole | mach4/bootstrap/ffs_file_io.c:207-208 | every block under a missing indirect block, at any level, is a hole |
| BlockLayout.ByteRead | mach4/bootstrap/ffs_file_io.c:293-361 | what is read as byte r of block q is byte r at that block's address, and zero in a hole |
| BlockLayout.FragmentsHeld | mach4/bootstrap/fs.h:430-433 | the block that a small file ends in has the whole fragments it needs and no more, and every block before it is full |
| FileReader.File.BufReadFile | mach4/bootstrap/ffs_file_io.c:293-361 | a chunk that is never empty, reaches to the end of the block or of the file, and is exactly the file's bytes there, whatever the buffer held; an error if and only if the offset is outside |
| FileReader.File.ReadFile | mach4/bootstrap/ffs_file_io.c:782-815 | any range inside the file is read whole, with nothing left over, zeros in holes; an error if and only if the range leaves the file |
| FileDirects.FileDirect.constructor | mach4/bootstrap/ffs_file_io.c:830-870 | an empty array on a device whose blocks are whole records |
| FileDirects.FileDirect.AddFile | mach4/bootstrap/ffs_file_io.c:875-954 | the array is the old one followed by the file's whole blocks, or unchanged if a block is out of reach |
| FileDirects.DirectAgrees | mach4/bootstrap/ffs_file_io.c:875-954 | what is read through the array behind earlier files is what the file holds |
| FileDirects.FileDirect.PageRead | mach4/bootstrap/ffs_file_io.c:987-1027 | at most a block's worth; right if the transfer starts a block or fits the rest of one; a panic if and only if offset or size is not a multiple of the record size, and otherwise an error if and only if there is no block or a hole |
| FileDirects.FileDirect.ReadPage | mach4/bootstrap/default_pager.c:1322-1354 | looped page reads return exactly the bytes of the array's blocks; they panic if and only if the range is not in whole records, and fail if and only if it leaves the blocks |
| FileDirects.FileDirect.WritePage | mach4/bootstrap/default_pager.c:1411-1432 | looped page writes put the data, up to the first byte that has no block, where the array has room for it; no other byte of any block and no other byte of the disk changes, also when they fail halfway |
| FileDirects.FileDirect.PageWrite | mach4/bootstrap/ffs_file_io.c:1033-1081 | the disk holds the data from the place of the offset on and elsewhere what it held; a transfer inside one block changes only its range of the array's blocks; a panic or an error, under the same conditions as for a read, changes nothing |
| FileDirects.WrittenIsRead | mach4/bootstrap/ffs_file_io.c:987-1081 | what was written through the array is what is read through it |
| FileDirects.OutsideKept | mach4/bootstrap/ffs_file_io.c:1033-1081 | a write through the array changes no byte of the disk outside the array's blocks |
| FileDirects.PageAgrees | mach4/bootstrap/ffs_file_io.c:875-1027 | once a file's blocks are in the array, behind any others, a page-aligned read through it is allowed, succeeds if and only if the page lies in whole blocks without holes, and returns what read_file returns |
| FileDirects.AlignedFits | mach4/bootstrap/ffs_file_io.c:956-985 | page-aligned transfers stay inside blocks when page size and block size divide one another |
| FileDirects.TransferExact | mach4/bootstrap/ffs_file_io.c:1016-1026 | a transfer is right on every disk and every block array if and only if it starts a block or fits the rest of one |
| FileDirects.WriteExact | mach4/bootstrap/ffs_file_io.c:1062-1081 | a write of up to a block changes exactly its range of the blocks, on every disk and every array of blocks apart from each other, if and only if it starts a block or fits the rest of one |
| PathWalk.OvbCopy | mach4/bootstrap/strfcns.c:81-97 | a correct move for every source, destination and length, overlapping or not, that touches nothing else |
| PathWalk.Splice | mach4/bootstrap/ffs_file_io.c:612-682 | the buffer holds the link's target followed by the unread rest of the path |
| PathWalk.StrPrefix | mach4/bootstrap/strfcns.c:64-75 | true if and only if the buffer's string begins with the prefix, however short it is |
| PathWalk.CheckedName | mach4/bootstrap/ffs_file_io.c:576-588 | a component is refused for a character that is not ASCII among its first 256, or else for having more than 256 characters, and otherwise its end is found |
| PathWalk.NamesThatPass | mach4/bootstrap/ffs_file_io.c:578-586 | a component passes if and only if it is ASCII and at most one character longer than the limit |
| PathWalk.LongNamePasses | mach4/bootstrap/ffs_file_io.c:581-582 | a name longer than the limit that passes |
| PathWalk.TrailingSeparator | mach4/bootstrap/ffs_file_io.c:567-606 | where no name is empty, every path that ends in a separator is an error, through any links |
| PathWalk.OnlySeparator | mach4/bootstrap/ffs_file_io.c:567-606 | a separator alone is not found in a directory without an empty name |
| PathWalk.EmptyTarget | mach4/bootstrap/ffs_file_io.c:682-688 | what follows a link is taken from where its target says, on every file system, if and only if the target is not empty or nothing follows |
| PathWalk.TakeComponent | mach4/bootstrap/ffs_file_io.c:559-728 | one round leaves the meaning of the walk as it was, and follows one more link or leaves a shorter string |
| PathWalk.WalkPath | mach4/bootstrap/ffs_file_io.c:559-736 | the walk ends on every directory graph, cycles of links included, with the result defined for the path |
| PathWalk.OpenFile | mach4/bootstrap/ffs_file_io.c:495-743 | the in-place walk returns what the path names, error codes included |
| PathLaws.OpensExactly | mach4/bootstrap/ffs_file_io.c:495-743 | a path that begins with a device opens a result, error codes included, if and only if a walk over the directory graph, one component or one link at a time and at most 8 links, ends with it |
| PathLaws.ChainOpens | mach4/bootstrap/ffs_file_io.c:559-606 | a path of names that lead from directory to directory, from the root on, opens the last inode |
| PathLaws.LinkOpens | mach4/bootstrap/ffs_file_io.c:609-728 | a link opens what the path opens that has its target in its place: behind the link's directory if relative, from the root if absolute, on device x if it begins with /dev/x; unless there are too many links |
| PathWalk.OpenEndsWell | mach4/bootstrap/ffs_file_io.c:609-728 | a file that is opened exists and is never a symbolic link |
| FreeLists.ChainFrame | mach4/bootstrap/kalloc.c:201-203 | a free list threaded through its blocks survives every change of memory outside the first words of those blocks |
| FreeLists.FindBucket | mach4/libthreads/malloc.c:125-134 | the doubling loop ends at the first bucket large enough |
| KernelAlloc.AllocSize | mach4/bootstrap/kalloc.c:183-193 | the smallest class that holds the request |
| KernelAlloc.PopKeeps | mach4/bootstrap/kalloc.c:201-208 | taking the head through the link in the block itself keeps the lists and the invariant, and leaves all live blocks alone |
| KernelAlloc.PushKeeps | mach4/bootstrap/kalloc.c:239-247 | the four bytes of the link fit the block put back, so no other block, live or free, changes, and the lists stay right |
| KernelAlloc.CarveKeeps | mach4/bootstrap/kalloc.c:162-164 | a block made of the remaining space overlaps no block, live or free, and no thread's pages |
| KernelAlloc.InstallKeeps | mach4/bootstrap/kalloc.c:143-159 | new pages, contiguous or not, make enough room and overlap nothing, whatever others did to the bounds |
| KernelAlloc.CarveAccounts | mach4/bootstrap/kalloc.c:162-164 | making a block keeps mapped space equal to blocks made, space left and space wasted |
| KernelAlloc.InstallAccounts | mach4/bootstrap/kalloc.c:143-159 | adding pages keeps that balance, the old remainder being wasted unless the pages follow it |
| KernelAlloc.WriteKeeps | mach4/bootstrap/kalloc.c:200-208 | a byte written anywhere in a live block leaves all four bytes of every link in a free block intact |
| KernelAlloc.Kalloc.constructor | mach4/bootstrap/kalloc.c:77-104 | an empty space that begins behind the first page, empty lists, and a limit of a page or 16384 bytes, whichever is less |
| KernelAlloc.Kalloc.GetSpace | mach4/bootstrap/kalloc.c:109-170 | with other threads running whenever the lock is dropped, the loop ends with a block that is nobody else's, or with none, and this thread's blocks are untouched |
| KernelAlloc.Kalloc.Alloc | mach4/bootstrap/kalloc.c:172-220 | memory at least as large as asked for that overlaps no block in use: the block freed last of the class if there is one, else the next of the space if it has room, else new pages if the kernel gives any |
| KernelAlloc.Kalloc.Free | mach4/bootstrap/kalloc.c:222-251 | the block goes to the front of the class it came from, or its pages to the kernel; every other block keeps its contents |
| ThreadMalloc.PopKeeps | mach4/libthreads/malloc.c:154-161 | taking a block off its list keeps the lists and the headers of all blocks in use |
| ThreadMalloc.PopRespects | mach4/libthreads/malloc.c:154-161 | that changes no byte of a block in use |
| ThreadMalloc.NameKeeps | mach4/libthreads/malloc.c:162-167 | writing the bucket into the four bytes of the header, with the list unlocked, spoils no list, no other header and no block in use |
| ThreadMalloc.WriteKeeps | mach4/libthreads/malloc.c:162-171 | a byte written behind the header of a block in use leaves every header and every link intact |
| ThreadMalloc.PushKeeps | mach4/libthreads/malloc.c:200-205 | linking a block, used or new and clear of all others, keeps the lists and all headers |
| ThreadMalloc.Malloc.MoreMemory | mach4/libthreads/malloc.c:78-112 | as many blocks as fit a page, or one large block, are put in front of one bucket's list and overlap nothing; or nothing changes |
| ThreadMalloc.Malloc.Alloc | mach4/libthreads/malloc.c:114-172 | with other threads running between the unlocking of the list and the writing of the header, a block not in use before, of the smallest bucket with room for request and header: the one freed last if there is one; the caller's blocks are left alone; 0 changes nothing |
| ThreadMalloc.Malloc.Free | mach4/libthreads/malloc.c:174-211 | with other threads running before the list is locked, the block goes to the front of the bucket it came from, found through its header; the caller's other blocks are left alone |
| ThreadMalloc.Malloc.Realloc | mach4/libthreads/malloc.c:213-261 | with other threads running, on success the new block begins with the old one's bytes, as many as both hold, and the old one is free; on failure it is untouched; the caller's other blocks never change |

## Left out

- Partitions and paging objects are values held by one storage object; aliasing between them, and two threads inside the storage at once, are not captured. Locks in `default_pager.c` outside the request protocol do nothing here.
- Storage.PagerStorage.DestroyPartition: does not model a second removal beside the first, and states nothing after a panic in `pager_move_page`, because the program stops there. For a slot whose cut-off index is 255, the one that means "none", it states only that it is asked for: the source then looks for pages without a block.
- PagedObject.ServedInOrder: does not model device errors in a data_request, a deletion of the object, or a partition removal that moves pages of the object by short transfers; a message of the kernel has whole pages.
- PathWalk.OpenFile: takes paths of at most `MAXPATHLEN` characters, which the source copies without a check, and link targets without a NUL.
- FileReader.File.BlockMap: does not model device errors or block addresses of 2^31 and more, which the source reads as negative; block sizes above 8192, which mounting refuses, are not modelled.
- PortSlots.SlotsConserved: takes the maximum that `cthread_mach_msg` is called with, which it tests, to be the one its port's entry was made with.
- FreeLists.ChainFrame: a word fills four byte cells with its value; how a value is laid out over its bytes is not modelled.
- FileDirects.FileDirect.AddFile: does not model unstructured devices and the check that file and array are on one device; device errors in page transfers are not modelled either.
- ThreadMalloc.Malloc.Alloc: takes requests that fit the largest bucket, as the source asserts.
- RequestProtocol.EveryRequestCompletes: bounds runs without new messages and listings; no statement is made about fairness between them.
- Wired cprocs, whose wake-ups are messages to their own port, the fast paths of `mutex_lock` and `mutex_unlock`, and exit of cprocs.
- No-senders in the request protocol; deletion of an object is modelled in the storage only.
- `pager_pages`, `overcommitted`, checksums, statistics and debugging branches: easy or compiled out.
- Directory records: a directory is a map from names to inodes.
- The Minix reader, `exec_file.c`, `load.c`, fork handlers and the bootstrap task's main program.
