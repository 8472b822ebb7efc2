# A verified model of FarReach's end-host logic

FarReach is an in-switch cache for a key-value store. This project models the hard part of its
end-host code in Dafny and proves what that code is for. `dafny verify dfyconfig.toml` checks
everything. The source is followed where it and its comments disagree.

Four clusters are modelled.

**A. The concurrent B+-tree map and its lock-free helpers.** A tree is an arena of nodes
(`TreeNodes`); the invariant `Ok` is a conjunction of local conditions on nodes. `TreeOps` and
`TreeSplits` prove that every store a writer makes (lock, place an entry, cut a leaf, link the
sibling, hand it to the parent, cut the parent, tell the children, crown a new root, increment a
version, unlock) keeps `Ok` and is harmless to every other thread (`Rely`). `TreeThreads`,
`TreeMachine` and `TreeWriters` give each thread a program counter with one shared load or store
per step, where a load from a node that is being changed may return anything. The results hold for
all runs of any number of threads: every call takes effect at one moment (`TreeLinear`), a key that
was there is never missed while its leaf splits (`TreeSafety`), some thread can always move
(`TreeProgress`), a thread that is not kept out returns after a bounded number of its own steps
(`TreeSolo`), the asserts that the split makes about its own work never fail (`TreeAsserts`), and
a scan that runs among the writers hands out keys in order and misses none that was there when it
started (`TreeCursor`). `TreeMap` is the object itself with its loops and its upward split, proved to
refine a plain map when called sequentially; `TreeScan` is the cursor behind `scan` and `range_scan`
there. `NodeArrays` is the in-place array work inside one node; no other module calls it, and what
links it to the tree is that both are proved against the same sequence functions of `TreeNodes`
(`InsertAt`, `LeafCut`, `InnerCut`, `IsFirstGeq`, `IsFirstGt`). `SeqLock` and `MessageQueue` are
step-level machines of `ConcurrentVal` and `MessagePtrQueue`; `SeqLockProgress` counts the steps that
are left of a call.

**B. Fragmentation and reassembly.** `Fragments` cuts and joins packets; `Assembly` is what a
partly filled buffer holds; `DynamicArrays` is the zero-filled growing buffer; `PktRingBuffers` the
ring of parked packets. `ReceiveMachine` is the server's receive loop over every sequence of calls,
packets of many clients and timeouts, and the invariant that each step keeps; `ReceiveCounts` counts
fragments, `ReceiveSafety` states what is returned, `ReceiveDelivery` what is bound to be returned,
`ReceiveRepeats` what becomes of a transmission that overtakes another of the same client, and
`ReceiveStops` which inputs end the server, and why. `LargeRequests` is the header that every fragment
of a request repeats.
`ReceiveLoop` is the loop itself over the ring object, proved to take exactly the machine's steps for
exactly the packets it takes from the network.

**C. The sequence-numbered store.** `DeletedSets` remembers deletions in two maps; `Store` is `get`,
`put` and `remove`, and `StoreMixed` with and without the check of the stored number; `RangeScans`
merges database, deletions and in-switch records; `Snapshots` is the snapshot state machine with the
files it writes, and `SnapshotFiles` what those files mean over whole runs; `RocksdbWrappers` is the
object, over three `DeletedSet` objects.

**D. Arithmetic and encodings.** `Checksums`, `Partitions`, `Keys`, `ScanResponses`, and `WireLayouts`,
which says where each field of a scan response is.

`Arith`, `Common` and `Maps` hold what is general. Keys are 128-bit; the order of `Key` is proved to be the
order of one number (`Keys.RankOrder`), and all modules but those of the encodings use that number.

Where the code does not meet what one would expect, the project says exactly when it does:

- the fragment round trip holds if and only if the fragment count fits 16 bits (`Fragments.RoundTrip`);
- a client that starts another large request for the same key while an earlier one is under way can get
  it back cut short (`ReceiveSafety.AbandonedRequest`). While the earlier one is pursued, the later one
  comes out whole under every arrival of its fragments if and only if it has as many fragments and is no
  shorter than what the earlier one has brought (`ReceiveRepeats.PursuedIff`). While the earlier one waits
  in the ring, at least as many fragments are enough (`ReceiveRepeats.ParkedIff`). A retry of the same
  value always fits (`ReceiveSafety.SameValueFits`);
- the order of writes does not matter, and every run with `n` deleted keys ends with every key holding its
  newest write if and only if the set of deletions can hold `n` (`Store.Converges`, `Store.SettlesIff`).
  That is for writes that check the stored number; ordinary requests do not. With both kinds a key ends with
  its newest write if and only if that is a deletion or no unchecked write of the key comes after it
  (`StoreMixed.KeptIff`, `StoreMixed.OlderStays`);
- a count-limited range query answers exactly the live records of what the scans of its three sources get
  to (`RangeScans.RangeScan`), which up to the least of the last keys that the scans cut short get to are
  exactly the live records (`RangeScans.CountIsRight`); beyond, a live record is missed, or a dead one comes
  back, exactly as `RangeScans.MissedIff` and `RangeScans.RevivedIff` say;
- a range query cannot meet a key both stored and deleted, and end the program, as long as its snapshot is
  one from memory (`Snapshots.RunApart`). One restored from disk has the data of the moment of the load,
  because RocksDB overwrites the stored number instead of going back to it, beside the deletions of the
  snapshot that was in use when the files were written, because `make_snapshot` stores those and not the
  ones it has just captured. A query over it ends the program if and only if a key of its range is among
  both (`Snapshots.RestoredApartIff`, `Snapshots.RestoredShares`, `Snapshots.RestoredSharesLater`);
- the server ends if and only if an input finds the ring full, ends beyond the largest buffer, or is a
  genuine fragment that contradicts the parked packet of its client or lies beyond the count of the packet
  pursued (`ReceiveStops.EndsIff`); fragments of a request that fits never do the last
  (`ReceiveStops.OwnNeverEnds`);
- the fragment sequence number that a large request decodes from its own bytes is right if and only if it
  is zero, because four bytes are converted as two (`LargeRequests.FragseqIff`); the receive loop reads it
  right (`LargeRequests.ReadsHeader`);
- of the four offsets at which a client looks into a scan response of several switches, that of the switch
  index would be right if and only if the packet header were as long as the gap before the counts, which it
  is for no method (`WireLayouts.SwitchIdWrong`);
- the snapshot in use can be taken back if and only if something was updated and nothing taken back since
  (`SnapshotFiles.RollBackAllowedIff`);
- the two checksums agree on all buffers of a length if and only if that length is at most 131074
  (`Checksums.AgreeIff`);
- the partition indexes stay in range if and only if a divisibility condition holds
  (`Partitions.HashIdxIff`, `Partitions.RangeIdxIff`, `Partitions.LeafIdxIff`);
- the version check of `ConcurrentVal` is exact until the version wraps (`SeqLock.IncrExact`).

## Model

| member | source | states |
|---|---|---|
| `TreeSafety.EmptyOk` | distcache/concurrent_map_impl.h:9-19 | the tree the constructor builds satisfies the whole invariant |
| `TreeSafety.RunSafe` | distcache/concurrent_map_impl.h:29-510 | in every state of every run of any number of threads the tree is well formed (sorted nodes, separators bound children, parents right, leaf chain exact, first keys equal lower fences) and every thread's view is justified |
| `TreeLinear.Linearizable` | distcache/concurrent_map_impl.h:29-78 | every call takes effect at one moment between begin and end: a get, or an update that does not find its key, stores at no step and its answer was the abstract map's at some moment of the call; an insert, or an update that finds its key, stores at exactly one step, which turns the abstract map into the old one with the pair, and answers that value |
| `TreeLinear.RunCounts` | distcache/concurrent_map_impl.h:29-510 | in every state of every run each thread has stored as often as its program counter says: never or once |
| `TreeLinear.CountMeans` | distcache/concurrent_map_impl.h:29-510 | that count tells which steps of the call stored |
| `TreeSafety.AnswerHeld` | distcache/concurrent_map_impl.h:29-78 | whatever a call returns, the abstract map gave that answer at some moment of the call |
| `TreeSafety.NeverMisses` | distcache/concurrent_map_impl.h:29-58 | a key present when the call began is found, whatever is split meanwhile |
| `TreeSafety.KeysGrow` | distcache/concurrent_map_impl.h:29-510 | no run of operations loses a key |
| `TreeLinear.OnlyOwnWrites` | distcache/concurrent_map_impl.h:61-78 | the abstract map changes only at a storing step, and then by the key and value of the operation of the thread that takes it, which is not a get |
| `TreeSafety.NextKeeps` | distcache/concurrent_map_impl.h:29-510 | every step of every thread keeps the invariant of tree and threads |
| `TreeSafety.ActKeeps` | distcache/concurrent_map_impl.h:29-510 | one step of one thread keeps the invariant and only does what other threads can rely on |
| `TreeSafety.ThreadStepKeeps` | distcache/concurrent_map_impl.h:29-510 | a step of a thread keeps the tree and justifies the thread's next program counter |
| `TreeThreads.ThreadStable` | distcache/concurrent_map_impl.h:29-510 | what a thread has established survives any step of any other thread |
| `TreeThreads.LocateStable` | distcache/concurrent_map_impl.h:136-167 | what the descent has read optimistically stays justified while others write |
| `TreeThreads.SeekStable` | distcache/concurrent_map_impl.h:33-57 | so does what has been read in a leaf |
| `TreeMachine.LocateKeeps` | distcache/concurrent_map_impl.h:136-167 | each load and version check of the descent keeps it on the way to a node that covers the key |
| `TreeMachine.SeekKeeps` | distcache/concurrent_map_impl.h:33-57 | each load of the leaf loop keeps it justified; the answer returned was true at the version check |
| `TreeMachine.ChaseKeeps` | distcache/concurrent_map_impl.h:175-192 | walking right along the leaf chain never passes the leaf that covers the key |
| `TreeMachine.LeafTells` | distcache/concurrent_map_impl.h:34-44 | a leaf at rest answers for a key it covers exactly as the abstract map |
| `TreeMachine.HoldKeeps` | distcache/concurrent_map_impl.h:198-250 | the four branches under the leaf lock (replace, absent, room, split) keep the invariant |
| `TreeMachine.LeafBumpKeeps` | distcache/concurrent_map_impl.h:231-234 | the version increment makes the new entry visible, and only that |
| `TreeWriters.ParentStepKeeps` | distcache/concurrent_map_impl.h:304-345 | loading, locking and re-checking the parent, and crowning a new root, keep the invariant |
| `TreeWriters.HandStepKeeps` | distcache/concurrent_map_impl.h:320-357 | telling the sibling its parent and installing the root keep the invariant |
| `TreeWriters.FinStepKeeps` | distcache/concurrent_map_impl.h:379-387 | the three version increments and releases keep the invariant; the inserted value has been seen |
| `TreeWriters.DivideStepKeeps` | distcache/concurrent_map_impl.h:388-459 | re-homing the children of a cut parent, one by one, keeps the invariant |
| `TreeWriters.BetweenStepKeeps` | distcache/concurrent_map_impl.h:460-466 | releasing the lower pair and going one level up keeps the invariant |
| `TreeOps.LockKeeps` | distcache/concurrent_map_impl.h:557-562 | taking a free lock keeps the invariant and is harmless to others |
| `TreeOps.UnlockKeeps` | distcache/concurrent_map_impl.h:564-567 | so is releasing a node at rest |
| `TreeOps.ValUpdateKeeps` | distcache/concurrent_map_impl.h:61-71 | replacing a value in a held leaf, and in the abstract map at that key, keeps the invariant and is harmless to others |
| `TreeOps.LeafInsertKeeps` | distcache/concurrent_map_impl.h:224-229 | placing a new entry at the searched slot keeps the leaf sorted and leaves the abstract map for the version increment |
| `TreeOps.BumpKeeps` | distcache/concurrent_map_impl.h:231-234 | incrementing the version publishes the entry and leaves the node at rest |
| `TreeSplits.LeafSplitKeeps` | distcache/concurrent_map_impl.h:248-287 | cutting a full leaf with the new entry in place keeps the invariant; the halves have adjoining ranges |
| `TreeSplits.LinkKeeps` | distcache/concurrent_map_impl.h:288-289 | linking the sibling makes the chain exact again |
| `TreeSplits.KidSlot` | distcache/concurrent_map_impl.h:347-350 | the slot the parent search finds is that of the split child, the separator is new and both searches agree |
| `TreeSplits.KidInsertKeeps` | distcache/concurrent_map_impl.h:346-378 | a parent with room takes separator and sibling, and every child is still bounded by its separators |
| `TreeSplits.KidSplitKeeps` | distcache/concurrent_map_impl.h:388-507 | cutting a full parent shares out its children and the new one and keeps every separator bound |
| `TreeSplits.KidSplitMembers` | distcache/concurrent_map_impl.h:388-455 | the two halves hold exactly the old children and the new one |
| `TreeSplits.SetParentKeeps` | distcache/concurrent_map_impl.h:456-459 | telling a child its parent keeps the invariant |
| `TreeSplits.NewRootKeeps` | distcache/concurrent_map_impl.h:320-335 | a fresh root over the two halves keeps the invariant |
| `TreeSplits.SetRootKeeps` | distcache/concurrent_map_impl.h:336-336 | installing it as the root keeps the invariant |
| `TreeAsserts.LeafHalves` | distcache/concurrent_map_impl.h:290-301 | in every run, after a leaf is cut and linked: both halves are leaves held by the thread, hold the sixteen entries between them, ascend, and the right one starts above the left one |
| `TreeAsserts.ParentTookIn` | distcache/concurrent_map_impl.h:363-377 | in every run, a parent that took the sibling in is an inner node held by the thread, not overfull, its keys ascend and separate its children, and each child points back at it |
| `TreeAsserts.InnerHalves` | distcache/concurrent_map_impl.h:468-507 | in every run, after an inner node is cut: the same of both halves, which hold fifteen keys between them, the right one above the left one |
| `TreeAsserts.SeparatorOk` | distcache/concurrent_map_impl.h:366-373 | keys of the child left of a separator are below it, the first key of the child right of it is not, even while the children are being changed |
| `TreeProgress.NoDeadlock` | distcache/concurrent_map_impl.h:170-195 | in every reachable state with an operation under way, some thread can take a step |
| `TreeProgress.HolderAbove` | distcache/concurrent_map_impl.h:304-346 | the holder of a wanted lock is at work, and if it waits itself it waits further up the tree |
| `TreeProgress.RunOwners` | distcache/concurrent_map_impl.h:557-567 | in every reachable state a thread owns no locks but those its program counter says |
| `TreeProgress.HoldsExactly` | distcache/concurrent_map_impl.h:557-567 | and it owns all of those: exactly them |
| `TreeProgress.CanMove` | distcache/concurrent_map_impl.h:29-510 | a thread waiting for no held lock can move: every index is in bounds and every pointer it follows is live, given that a child pointer read from a node being changed is some node |
| `TreeSolo.SoloReturns` | distcache/concurrent_map_impl.h:29-510 | in every run, from every moment at which no other thread holds a lock, a thread on its own takes no more steps than its position, the height and the leaf chain bound, and can take one until its get, update or insert returns |
| `TreeSolo.ThreadWorks` | distcache/concurrent_map_impl.h:29-510 | every such step brings the operation nearer to its end, retries included |
| `TreeSolo.RootAlone` | distcache/concurrent_map_impl.h:136-148 | with nothing locked the root has no parent, so that the search for it does not start over |
| `TreeSplits.CutsEven` | distcache/concurrent_map_impl.h:253-455 | how many entries each half of a full leaf and of a full inner node gets, wherever the new one belongs |
| `NodeArrays.FindFirstGeq` | distcache/concurrent_map_impl.h:570-587 | the binary search returns the first key not below the one sought |
| `NodeArrays.FindFirstGt` | distcache/concurrent_map_impl.h:589-606 | and this one the first key above it |
| `NodeArrays.CopyBackward` | distcache/concurrent_map_impl.h:608-617 | moving entries one place up loses none and touches no others |
| `NodeArrays.Copy` | distcache/concurrent_map_impl.h:620-628 | copying entries to another node |
| `NodeArrays.InsertSlot` | distcache/concurrent_map_impl.h:225-228 | the live prefix becomes the old one with the entry inserted |
| `NodeArrays.SplitLeafArray` | distcache/concurrent_map_impl.h:253-285 | in place, both branches: the two arrays hold the first and the second part of the widened leaf |
| `NodeArrays.InnerMid` | distcache/concurrent_map_impl.h:401-408 | the cut of a full inner node falls inside it on either side of the new entry |
| `NodeArrays.SplitInnerKeys` | distcache/concurrent_map_impl.h:410-455 | the keys of a full inner node and the one that moves up, all branches |
| `NodeArrays.SplitInnerKids` | distcache/concurrent_map_impl.h:410-455 | its children, all branches |
| `TreeMap.ConcurrentMap.constructor` | distcache/concurrent_map_impl.h:9-19 | a valid tree with no entries |
| `TreeMap.ConcurrentMap.Get` | distcache/concurrent_map_impl.h:29-58 | the answer of the abstract map |
| `TreeMap.ConcurrentMap.Update` | distcache/concurrent_map_impl.h:61-71 | replaces the value exactly if the key is there; nothing else changes |
| `TreeMap.ConcurrentMap.Insert` | distcache/concurrent_map_impl.h:74-78 | refines map update; tree well formed, size equal to the number of keys, versions never decrease |
| `TreeMap.ConcurrentMap.PlaceEntry` | distcache/concurrent_map_impl.h:224-236 | a leaf with room takes the entry |
| `TreeMap.ConcurrentMap.SplitNInsertLeaf` | distcache/concurrent_map_impl.h:244-510 | the upward split ends, by the height of the tree, with all locks free and the entry in the map |
| `TreeMap.ConcurrentMap.CutLeaf` | distcache/concurrent_map_impl.h:248-287 | the full leaf becomes a pair that awaits its link |
| `TreeMap.ConcurrentMap.LockParent` | distcache/concurrent_map_impl.h:307-318 | the parent locked is the right one, one level up |
| `TreeMap.ConcurrentMap.Crowned` | distcache/concurrent_map_impl.h:320-345 | the split reached the root |
| `TreeMap.ConcurrentMap.Give` | distcache/concurrent_map_impl.h:346-387 | the parent has room: the split is finished |
| `TreeMap.ConcurrentMap.Divide` | distcache/concurrent_map_impl.h:388-466 | the parent is full: it is split and takes the place of the node just split, one level up |
| `TreeMap.ConcurrentMap.LocateLeaf` | distcache/concurrent_map_impl.h:136-167 | the leaf whose range covers the key |
| `TreeMap.ConcurrentMap.LocateLeafLocked` | distcache/concurrent_map_impl.h:170-195 | the same, and it alone is locked |
| `TreeMap.ConcurrentMap.Scan` | distcache/concurrent_map_impl.h:96-112 | exactly the first n entries from the start key on, in order |
| `TreeMap.ConcurrentMap.RangeScan` | distcache/concurrent_map_impl.h:114-128 | exactly the entries between the two keys, in order |
| `TreeScan.FirstEntriesUnique` | distcache/concurrent_map_impl.h:96-112 | the description of the scan's result fits one list only |
| `TreeScan.DataSource.constructor` | distcache/concurrent_map_impl.h:687-725 | the cursor starts with the entries of the first leaf from the start key on |
| `TreeScan.DataSource.ReadLeaf` | distcache/concurrent_map_impl.h:742-757 | reading a leaf yields exactly the entries of its range |
| `TreeScan.DataSource.AdvanceToNextValid` | distcache/concurrent_map_impl.h:728-776 | delivers the least key not yet delivered, across leaf boundaries and empty leaves, or says that there is none |
| `TreeCursor.ScanSound` | distcache/concurrent_map_impl.h:96-128 | a scan among any number of writers, load by load: what it has handed out ascends from the start key, each pair was in the map at some moment of the scan, and no key that was there at the start is skipped |
| `TreeCursor.ScanWhole` | distcache/concurrent_map_impl.h:733-737 | a scan that comes to the end of the chain has missed no key that was there at the start |
| `TreeCursor.ScanMoves` | distcache/concurrent_map_impl.h:687-776 | the scan can always take its next load, in whatever state the writers have left the map |
| `TreeCursor.CursorStable` | distcache/concurrent_map_impl.h:687-776 | what the scan has read optimistically stays justified while others write |
| `TreeCursor.CursorKeeps` | distcache/concurrent_map_impl.h:687-776 | each load and version check of the scan keeps it justified |
| `TreeCursor.CopyCovers` | distcache/concurrent_map_impl.h:746-757 | a leaf copied between two equal versions, found unlocked, is complete up to the first key of the next leaf |
| `SeqLock.ReadIsWhole` | distcache/concurrent_val.h:65-86 | in every interleaving of word-by-word writers and readers, a read that returns has copied the value published last: one that the constructor or one single update wrote completely |
| `SeqLock.Exclusion` | distcache/concurrent_val.h:39-50 | two writers are never inside the lock together |
| `SeqLock.AssertHolds` | distcache/concurrent_val.h:51-56 | the assert of the version increment never fires |
| `SeqLock.Provenance` | distcache/concurrent_val.h:87-95 | every published value is the constructor's or was written whole by one update |
| `SeqLock.IncrExact` | distcache/concurrent_val.h:51-56 | incrementing a locked status adds one to the version and keeps the lock exactly until the version wraps |
| `SeqLock.RunInv` | distcache/concurrent_val.h:39-95 | the invariant of status, owner, words and copies in every reachable state |
| `SeqLock.PublishKeeps` | distcache/concurrent_val.h:87-95 | the version increment turns away every reader that may have copied a torn value |
| `SeqLockProgress.SoloReturns` | distcache/concurrent_val.h:65-95 | from every reachable state in which no other writer holds the lock, a reader or a writer on its own is done after exactly the steps that are left, at most twice the words of the value and nine, and can go on until then |
| `SeqLockProgress.StepWorks` | distcache/concurrent_val.h:65-95 | every step of such a thread leaves exactly one less, and starts over at most once |
| `MessageQueue.Fifo` | distcache/message_queue_impl.h:27-49 | in every interleaving of one writer and one reader, the objects read are a prefix of those written, and no check of a slot fails |
| `MessageQueue.AnswersExact` | distcache/message_queue_impl.h:27-49 | the ring refuses exactly when size-1 objects are in it, and is found empty exactly when none is |
| `MessageQueue.ReadAnswers` | distcache/message_queue_impl.h:38-49 | over every run, a read answers NULL exactly if the ring held nothing when it loaded the head, and then takes nothing; otherwise it answers the oldest object that was in it, and has taken exactly that |
| `MessageQueue.WriteAnswers` | distcache/message_queue_impl.h:27-37 | over every run, a write answers false exactly if the ring held size-1 objects when it loaded the tail, and then writes nothing; otherwise it has written exactly what it was given |
| `MessageQueue.EveryAnswer` | distcache/message_queue_impl.h:27-49 | every answer in a run ends such a call, for which the two results above hold |
| `MessageQueue.WaitFree` | distcache/message_queue_impl.h:27-49 | in every reachable state a call under way can go on and answers after at most five of its own steps, whatever the other thread does |
| `MessageQueue.RunInv` | distcache/message_queue_impl.h:27-49 | each slot holds the object its index stands for, or NULL, in every reachable state |
| `DynamicArrays.DynamicArray.constructor` | common/dynamic_array.c:24-36 | an empty, zero-filled buffer |
| `DynamicArrays.DynamicArray.Reserve` | common/dynamic_array.c:86-117 | growing keeps the contents, goes to the least doubling that is enough or to the maximum, ends the program exactly past that, and bytes past the size stay zero |
| `DynamicArrays.DynamicArray.Memcpy` | common/dynamic_array.c:46-53 | the contents become the old ones with the bytes written over, a gap reading as zeroes |
| `DynamicArrays.DynamicArray.Memset` | common/dynamic_array.c:55-62 | the same for one repeated byte |
| `DynamicArrays.DynamicArray.Clear` | common/dynamic_array.c:64-76 | empty, zero-filled and back to the smallest capacity |
| `Fragments.RoundTrip` | common/socket_helper.c:483-528 | fragment, relabel by the switch, reorder in any way, reassemble: the body comes back behind fragment 0's header if and only if the fragment count is below 65536 |
| `Fragments.SendLarge` | common/socket_helper.c:483-528 | the fragments are the pieces of the body with header, index and count; with a truncated count either nothing is sent or a copy exceeds the fragment buffer |
| `Fragments.CutStep` | common/socket_helper.c:518-523 | the piece sizes of the loop, also with the truncated count |
| `Fragments.RecvLarge` | common/socket_helper.c:616-850 | from one source, any permutation of the fragments gives the body behind fragment 0's header |
| `Fragments.CutCount` | common/socket_helper.c:490-492 | the sender's fragment count is the number of pieces |
| `Fragments.FragBodySize` | common/socket_helper.c:664-678 | the receiver computes the sender's body size for every method and every type the switch may have made of it |
| `Fragments.SizesOfAre` | common/packet_format_impl.h:4489-4530 | header and body sizes agree for all types that count as one |
| `LargeRequests.HdrSizeIs` | common/packet_format_impl.h:4489-4515 | the header size of every type and method is the length of the fields written before the fragment index |
| `LargeRequests.OpHdrIs` | common/packet_format_impl.h:13-39 | the size of the packet header is that of type, switch indexes and key as they are written |
| `LargeRequests.ReadsHeader` | common/packet_format_impl.h:4531-4580 | whatever follows the header, the client index and the fragment sequence number are read where they were written, behind what the switch has added |
| `LargeRequests.FragseqIff` | common/packet_format_impl.h:3734-3746 | the fragment sequence number that the packet class decodes is the upper half of what was written: right if and only if that is zero |
| `Assembly.WrittenKeeps` | common/socket_helper.c:812-817 | copying one more part, with or without its header, keeps what is there |
| `Assembly.WholeBody` | common/socket_helper.c:819-829 | as many different parts as were announced are the whole body |
| `PktRingBuffers.PktRingBuffer.constructor` | common/pkt_ring_buffer.c:10-28 | an empty ring |
| `PktRingBuffers.PktRingBuffer.Push` | common/pkt_ring_buffer.c:30-59 | refines appending to a queue of at most capacity-1 packets |
| `PktRingBuffers.PktRingBuffer.HasClient` | common/pkt_ring_buffer.c:61-72 | whether the client has a large packet queued; the checks never fail |
| `PktRingBuffers.PktRingBuffer.PushLarge` | common/pkt_ring_buffer.c:74-108 | appends a large packet and records its client, and when it ends the program |
| `PktRingBuffers.PktRingBuffer.UpdateLarge` | common/pkt_ring_buffer.c:110-149 | changes that client's packet and no other; the count restarts on a larger sequence number |
| `PktRingBuffers.UpdatedBytes` | common/pkt_ring_buffer.c:132-148 | one more fragment: its part is where it belongs, and the start of the buffer is its header if it is fragment 0 or the first one counted, else what it was |
| `PktRingBuffers.PktRingBuffer.Pop` | common/pkt_ring_buffer.c:151-198 | removes and returns the oldest packet |
| `PktRingBuffers.FullIff` | common/pkt_ring_buffer.c:33-35 | the index comparisons mean full and empty |
| `PktRingBuffers.StoreKeeps` | common/pkt_ring_buffer.c:37-58 | storing keeps: valid flags mark exactly the window, the client map is a bijection onto the queued large packets |
| `PktRingBuffers.ReplaceKeeps` | common/pkt_ring_buffer.c:132-148 | so does replacing a large packet in place |
| `PktRingBuffers.DropKeeps` | common/pkt_ring_buffer.c:156-197 | so does dropping the oldest |
| `ReceiveSafety.ReturnsExact` | common/socket_helper.c:574-850 | over every run of calls, timeouts and packets of many clients, whatever overtakes what: a large packet returned has taken fragments of one transmission, each once; it is byte for byte what was sent, behind the header fragment 0 arrived with, and the only one returned of that transmission, unless it lacks a fragment or is longer than what was sent |
| `ReceiveSafety.ReturnsWhole` | common/socket_helper.c:574-850 | where a transmission that overtakes another fits it, everything returned is whole and returned once |
| `ReceiveSafety.SmallsKept` | common/socket_helper.c:711-723 | in every state of every run the small packets that arrived are, in order, those returned and then those parked, but for one that ended the server; no check of the receiver on its own state fails |
| `ReceiveSafety.RunSafe` | common/socket_helper.c:574-850 | the invariant behind both, in every state of every run |
| `ReceiveSafety.AbandonedRequest` | common/socket_helper.c:779-783 | a second, longer request for the same key under a larger sequence number is returned cut short |
| `ReceiveRepeats.PursuedIff` | common/socket_helper.c:772-829 | a packet is pursued and its client starts again: the later transmission comes out whole under every arrival of its fragments, among any other packets, calls and timeouts, if and only if it has as many fragments and is no shorter than what has arrived |
| `ReceiveRepeats.ParkedIff` | common/pkt_ring_buffer.c:110-149 | a packet waits in the ring while a later transmission arrives completely: that is then whole and ready if and only if it has at least as many fragments and is no shorter |
| `ReceiveRepeats.RunBecomes` | common/pkt_ring_buffer.c:110-149 | whether it fits or not: the count starts again, the earlier fragment number stays, and the buffer never shrinks |
| `ReceiveDelivery.Delivers` | common/socket_helper.c:539-850 | once all its fragments have arrived, whatever else did, a large request has been returned whole or waits whole for the next call |
| `ReceiveDelivery.RunFollows` | common/socket_helper.c:539-850 | until then a packet, parked or pursued, carries exactly what has arrived of it |
| `ReceiveCounts.StepWeight` | common/socket_helper.c:574-850 | no step makes more of a transmission's fragments than arrive with it, over ring, packet pursued and packets returned |
| `ReceiveCounts.OnlyOne` | common/socket_helper.c:819-829 | a packet that took every fragment of its transmission is the only one returned of it |
| `ReceiveStops.EndsIff` | common/socket_helper.c:616-848 | for each reason exactly when a run ends for it: a full ring on a small packet, a timeout or the first fragment of a client; a small packet or a fragment taken up that ends beyond the largest buffer; a fragment of another key or type, an older transmission or an excessive size for a parked packet, or beyond the count of the packet pursued |
| `ReceiveStops.EndsAnyIff` | common/socket_helper.c:616-848 | the same for every packet, whoever sent it: also on an answer, which is not for servers, and on a fragment with more bytes than one may have or, where a packet starts, no place among those announced |
| `ReceiveStops.RunBufsOk` | common/socket_helper.c:803-847 | in every run the packet pursued and all parked ones fit the largest buffer, so that parking on a timeout fails only for a full ring |
| `ReceiveStops.TwoFates` | common/socket_helper.c:726-783 | the same late or foreign fragment ends the server while its client's packet is parked, and changes nothing while that is pursued |
| `ReceiveStops.OwnNeverEnds` | common/socket_helper.c:689-829 | the fragments of a request that fits the earlier packet of its client, if any, never end the server, unless the first finds the ring full |
| `ReceiveSafety.SameValueFits` | common/socket_helper.c:779-783 | a retry of the same value always fits |
| `ReceiveMachine.CallKeeps` | common/socket_helper.c:574-613 | taking the oldest parked packet keeps the invariant |
| `ReceiveMachine.FirstKeeps` | common/socket_helper.c:616-688 | so does the first packet of a call |
| `ReceiveMachine.SameClientKeeps` | common/socket_helper.c:772-787 | so does a fragment of the client pursued, matching, stale or repeated |
| `ReceiveMachine.ParkKeeps` | common/socket_helper.c:726-771 | so does parking a fragment of another client |
| `ReceiveMachine.TimeoutKeeps` | common/socket_helper.c:832-847 | so does parking the packet pursued at a timeout |
| `ReceiveMachine.TakeKeeps` | common/socket_helper.c:803-829 | so does a fragment taken by the packet pursued |
| `ReceiveMachine.SmallKeeps` | common/socket_helper.c:711-723 | so does a small packet |
| `ReceiveLoop.Receiver.UdpRecvLarge` | common/socket_helper.c:539-850 | one call takes a prefix of the network's packets, and a timeout only when there are no more; the object goes through exactly the machine's steps for them, in order, and returns what the machine returned |
| `ReceiveLoop.Receiver.Pursue` | common/socket_helper.c:689-799 | the same for a packet that arrives while another is pursued; a small one is parked last, or ends the server exactly if the ring is full or it exceeds the largest buffer |
| `ReceiveLoop.Receiver.ParkFragment` | common/socket_helper.c:726-771 | the same for a fragment of another client |
| `ReceiveLoop.Receiver.FirstPacket` | common/socket_helper.c:616-688 | the same for the first packet of a call |
| `ReceiveLoop.Receiver.ParkPursued` | common/socket_helper.c:832-847 | the same for a timeout |
| `ReceiveLoop.Receiver.PopFirst` | common/socket_helper.c:574-613 | the same for the oldest parked packet |
| `Store.Converges` | common/rocksdb_wrapper.c:408-611 | from any start whose stored and deleted keys are apart, such as the loader's records, with positive distinct numbers of their own and no more deleted keys than the set holds: every order of the same operations ends in the same database, deletions and largest number |
| `Store.GetReports` | common/rocksdb_wrapper.c:328-406 | get reports the write with the largest number: its value and number, or the number of the deletion |
| `Store.WinnerIsNewest` | common/rocksdb_wrapper.c:408-611 | the write that wins is the one with the largest number, whatever the order |
| `Store.RunSettles` | common/rocksdb_wrapper.c:408-611 | from any such start, after every run each key holds its newest write and the two maps of the deletions are inverse |
| `Store.MaxSeqIs` | common/rocksdb_wrapper.c:408-611 | after every run of operations, each with or without the check, the largest number is that of the start or of the writes, refused ones included, exactly |
| `StoreMixed.KeptIff` | farreach/server_impl.h:746-831 | from any start, in any run of checked and unchecked operations with room for its deletions, a key ends with its newest write if and only if that is a deletion or no unchecked write of the key comes after it |
| `StoreMixed.InOrderReports` | farreach/server_impl.h:1649-1652 | get reports the newest write of a key whose unchecked writes come in the order of their numbers, whenever checked ones arrive |
| `StoreMixed.OlderStays` | farreach/server_impl.h:746-748 | two unchecked puts out of order leave the older one |
| `Store.RunDisjoint` | common/rocksdb_wrapper.c:328-611 | stored and deleted keys stay disjoint in every run, whatever the sequence numbers and with or without the check |
| `Store.SettlesIff` | common/deleted_set_impl.h:29-60 | all runs with n deleted keys end with every key holding its newest write if and only if n does not exceed the limit |
| `DeletedSets.AddKeepsSync` | common/deleted_set_impl.h:29-60 | the maps stay inverse, the size stays within the limit, and what is forced out is the smallest number |
| `DeletedSets.CheckKeepsSync` | common/deleted_set_impl.h:75-104 | the maps stay inverse; a deletion goes exactly when it is not newer |
| `DeletedSets.EvictOldest` | common/deleted_set_impl.h:39-45 | dropping the first entry by number drops the oldest deletion from both maps |
| `DeletedSets.LoadedIs` | common/deleted_set_impl.h:133-171 | records inserted one by one give the map they list and its inverse |
| `DeletedSets.DeletedSet.constructor` | common/deleted_set_impl.h:10-13 | empty, with ten times the product as its limit |
| `DeletedSets.DeletedSet.Add` | common/deleted_set_impl.h:29-60 | the two maps change as specified, and what that means for the remembered keys |
| `DeletedSets.DeletedSet.CheckAndRemove` | common/deleted_set_impl.h:75-104 | answer, reported number and new state |
| `DeletedSets.DeletedSet.Assign` | common/deleted_set_impl.h:16-20 | a copy of the other set's records, both ways; the other set is not changed |
| `DeletedSets.DeletedSet.Store` | common/deleted_set_impl.h:174-196 | the file lists every entry once, in key order |
| `DeletedSets.DeletedSet.Load` | common/deleted_set_impl.h:133-171 | succeeds exactly if the file is not empty and as long as it announces, where missing bytes of the count read as zero, and restores the entries of a stored file |
| `DeletedSets.StoreThenLoad` | common/deleted_set_impl.h:133-196 | load after store restores both maps |
| `DeletedSets.FileLayout` | common/deleted_set_impl.h:174-196 | the file is the number of entries and 20 bytes for each: its key and its number, lowest byte first |
| `RangeScans.RangeScan` | common/rocksdb_wrapper.c:613-737 | ends the program exactly on a count outside 1 to 1000 or on a key that the scans of database and deletions both get to; else ascending, and exactly the live records, by sequence number, of what the scans of database, deletions and cache get to; a count cuts the tail |
| `RangeScans.MergeSort` | common/rocksdb_wrapper.c:1219-1309 | the two-index merge keeps the larger number per key and, if asked, live records only; it ends the program only on an equal key in the first merge |
| `RangeScans.ScanSource` | common/deleted_set_impl.h:107-124 | one ordered scan: exactly the records in range, or with a count those that at most n keys precede or equal |
| `RangeScans.MergedIsBest` | common/rocksdb_wrapper.c:716-722 | two merges in sequence give the record that counts among three sources |
| `RangeScans.RangeIsRight` | common/rocksdb_wrapper.c:613-737 | with an end key the scans get to the whole range: exactly its live records |
| `RangeScans.RangeApart` | common/rocksdb_wrapper.c:1267-1270 | with an end key the program ends if and only if a key of the range is both stored and deleted |
| `RangeScans.CountIsRight` | common/rocksdb_wrapper.c:651-711 | with a count the answer is exactly the live records up to the least of the last keys that the scans cut short get to |
| `RangeScans.MissedIff` | common/rocksdb_wrapper.c:651-690 | with a count, a live record is missed if and only if no scan of a source that has it gets to it |
| `RangeScans.RevivedIff` | common/rocksdb_wrapper.c:696-711 | and a record that does not count comes out if and only if the scan of its source gets to it and that of the source with the better record does not |
| `RangeScans.CutShortRevives` | common/rocksdb_wrapper.c:613-737 | one such view: a deleted record comes back |
| `Snapshots.MakeOncePerStop` | common/rocksdb_wrapper.c:889-1041 | between two successful make_snapshot there is a stop_snapshot |
| `Snapshots.ViewStable` | common/rocksdb_wrapper.c:838-1041 | what range queries see does not change until the next update_snapshot (or clean of the same id), whatever is written meanwhile |
| `Snapshots.UpdateInstalls` | common/rocksdb_wrapper.c:838-1030 | update_snapshot installs the database and deletions captured by the last successful make_snapshot of its round, of which there is one, with the in-switch records given |
| `Snapshots.NeverLoads` | common/rocksdb_wrapper.c:1000-1003 | in a round that clean_snapshot opened, update_snapshot never takes what lies on disk |
| `Snapshots.Captured` | common/rocksdb_wrapper.c:889-964 | what is captured is the database and deletions at the last successful make_snapshot of the round |
| `Snapshots.CaptureUnique` | common/rocksdb_wrapper.c:889-1041 | without a stop inside a round, only the first make_snapshot succeeds |
| `Snapshots.BusyUntilStop` | common/rocksdb_wrapper.c:1033-1041 | only stop_snapshot ends a snapshot |
| `Snapshots.RunApart` | common/rocksdb_wrapper.c:911-927 | in every run the store's own pair, the captured pair and an installed pair from memory keep stored and deleted keys apart, so that a range query over the latter never meets an equal key in the first merge |
| `Snapshots.RestoredApartIff` | common/rocksdb_wrapper.c:935-1103 | a restored snapshot has the data of the step that loaded it and the deletions in use at the step that wrote its files; it keeps stored and deleted keys apart if and only if no key is in both, and a query up to an end key ends the program if and only if one of its range is |
| `Snapshots.RollBackIff` | common/rocksdb_wrapper.c:838-885 | the same from what is there before a roll-back: the present database and the deletions in the files |
| `Snapshots.RestoredShares` | common/rocksdb_wrapper.c:935-944 | a run from the fresh state in which they are not apart: delete, snapshot, put, snapshot, snapshot, clean |
| `Snapshots.RestoredSharesLater` | common/rocksdb_wrapper.c:1066-1067 | another, in which they were apart when the files were written: delete, snapshot, snapshot, put, snapshot, clean |
| `Snapshots.DiskWritten` | common/rocksdb_wrapper.c:804-948 | the deletions and largest number in the files of a snapshot are those of the last step of the run that wrote files of it: the deletions in use and the largest number, then |
| `Snapshots.ViewCounts` | common/rocksdb_wrapper.c:613-737 | the live records of the merged view are those that count in the snapshot's own data, deletions and in-switch records |
| `SnapshotFiles.SeqSince` | common/rocksdb_wrapper.c:408-611 | between two loads the largest number is the largest of the first state's and of all numbers written since, whatever the flags |
| `SnapshotFiles.SeqAfterLoad` | common/rocksdb_wrapper.c:1047-1103 | a load brings back the largest number of the step that wrote the files last; from there on it is the largest of that and of what was written since |
| `SnapshotFiles.RolledRecords` | common/rocksdb_wrapper.c:862-884 | after a roll-back range queries read the in-switch records that the last update to the predecessor was given, or none if that is the first snapshot |
| `SnapshotFiles.RollBackAllowedIff` | common/rocksdb_wrapper.c:838-1030 | over every run: the snapshot in use can be taken back if and only if there was an update and no roll-back since |
| `SnapshotFiles.RunFilesOk` | common/rocksdb_wrapper.c:1024-1030 | in every run there are files of the snapshot in use, and none older than its predecessor's |
| `SnapshotFiles.RunCachesOk` | common/rocksdb_wrapper.c:862-1030 | in every run in-switch records are stored for every snapshot that was in use and has files, and for none but the one in use and its predecessor |
| `SnapshotFiles.MakesIff` | common/rocksdb_wrapper.c:889-1041 | over every run: make_snapshot takes one if and only if there is a first snapshot and the last one made was stopped |
| `SnapshotFiles.FirstSnapshot` | common/rocksdb_wrapper.c:769-835 | the first snapshot is the database of the moment, without deletions or in-switch records |
| `SnapshotFiles.RoundOver` | common/rocksdb_wrapper.c:1004-1030 | what a round captured is used by one update only |
| `RocksdbWrappers.RocksdbWrapper.Get` | common/rocksdb_wrapper.c:328-406 | answers the stored record or the number of the deletion, or 0; changes nothing that can be read: neither the answer for any key nor the snapshot in use |
| `RocksdbWrappers.RocksdbWrapper.Put` | common/rocksdb_wrapper.c:408-520 | afterwards the key reads as the write, or as before if the write is stale; every other key reads as before, stored and deleted keys stay apart, and the snapshot in use is untouched; it fails exactly on a newer deletion, and the largest number becomes the write's if that is larger |
| `RocksdbWrappers.RocksdbWrapper.Remove` | common/rocksdb_wrapper.c:522-611 | afterwards the key is gone, or reads as before if the removal is stale; no other record is lost; while the set has room every other key reads as before and the key reports the number of its removal; it fails exactly on a newer deletion, and the largest number becomes the removal's if that is larger |
| `RocksdbWrappers.RocksdbWrapper.CleanSnapshot` | common/rocksdb_wrapper.c:838-885 | the next snapshot is forgotten, in memory and on disk, and the one in use stays; or the one in use gives way to the database as it is now, beside the deletions in the files of its predecessor |
| `RocksdbWrappers.RocksdbWrapper.MakeSnapshot` | common/rocksdb_wrapper.c:889-964 | succeeds exactly if there is a snapshot and none is being made; then it holds the store as it is, and neither the store nor the snapshot in use changes |
| `RocksdbWrappers.RocksdbWrapper.UpdateSnapshot` | common/rocksdb_wrapper.c:968-1030 | range queries read the captured pair and the in-switch records given; the store does not change |
| `RocksdbWrappers.RocksdbWrapper.RangeQuery` | common/rocksdb_wrapper.c:613-737 | over the snapshot in use and nothing else, in terms of its data, deletions and in-switch records: ends the program exactly on a bad count or a key got to that is both stored and deleted; else exactly, of each key got to, the stored record unless the in-switch one has a larger number, or the in-switch one if its number is larger than the stored or deleted one's; with an end key of the whole range |
| `RocksdbWrappers.PutReads` | common/rocksdb_wrapper.c:408-520 | what put means for every later get |
| `RocksdbWrappers.RemoveReads` | common/rocksdb_wrapper.c:522-611 | what remove means for every later get |
| `Checksums.AgreeIff` | common/crc32.c:35-77 | the two checksums agree, byte for byte in opposite order, on every buffer of a length if and only if it is at most 131074 |
| `Checksums.Compare` | common/socket_helper.c:12-39 | the two routines on one buffer give results with the bytes in opposite order within the limit |
| `Checksums.Checksum` | common/socket_helper.c:12-39 | the complement of the one's-complement value of the sum, the 32-bit accumulator's overflow included |
| `Checksums.Cksum16` | common/crc32.c:35-77 | its bytes, lowest first, are those of the complement of the one's-complement sum of the whole buffer, highest first, zero included |
| `Checksums.SwapBytes` | common/crc32.c:70-77 | swapping exchanges the two bytes of every 16-bit number |
| `Checksums.Verifies` | common/crc32.c:35-77 | a buffer followed by its checksum sums to all ones, which is how a receiver checks it |
| `Checksums.OddPadded` | common/crc32.c:62-66 | a last odd byte counts as if a zero followed |
| `Checksums.SumChunks` | common/crc32.c:41-66 | chunks of 8, 4, 2 and 1 bytes with end-around carry give a sum equivalent to that of the 16-bit words |
| `Checksums.AddCarryIs` | common/crc32.c:43-45 | add-then-compare is end-around carry |
| `Partitions.HashIdxIff` | common/key.c:508-516 | every hash falls to a server if and only if the remainder does not exceed the quotient |
| `Partitions.HashIdxAt` | common/key.c:508-538 | server j has exactly the hashes of part j, and the last one those of the part behind it too |
| `Partitions.RangeIdxIff` | common/key.c:518-528 | every key falls to a server if and only if the servers divide 65536 |
| `Partitions.RangeIdxAt` | common/key.c:518-528 | server j has exactly the keys whose top 16 bits lie in part j |
| `Partitions.LeafIdxIff` | common/key.c:558-570 | every server has a leaf switch if and only if the leaf switches divide the servers |
| `Partitions.LeafIdxAt` | common/key.c:558-570 | leaf switch j has exactly the servers of part j |
| `Partitions.RangeOrdered` | common/key.c:518-570 | larger keys belong to the same or a later server and leaf switch |
| `Partitions.SpineTwoSteps` | distcache/warmup_client.c:83-83 | the warm-up client's two-step spine index is the reflector's one-step index |
| `Partitions.NoCorrection` | common/key.c:530-538 | with servers that divide the partitions the index needs no correction |
| `Keys.RankOrder` | common/key.c:255-263 | comparing keys is comparing one number, which determines the key |
| `Keys.BytesOrder` | common/key.c:164-221 | the bytes handed to RocksDB compare as the keys do and decode back |
| `Keys.LexIsValue` | common/key.c:164-201 | byte order of equal lengths is the order of the big-endian values |
| `Keys.SerializeBack` | common/key.c:311-403 | deserialize undoes serialize |
| `Keys.WireLayout` | common/key.c:385-403 | which bytes each word of a key is on the wire: from the lowest word up, highest byte first, and of the highest word the lower half first |
| `ScanResponses.Serialize` | common/packet_format_impl.h:1152-1198 | the bytes of the packet in a fixed buffer, or failure exactly when it is too small |
| `ScanResponses.DynamicSerialize` | common/packet_format_impl.h:1201-1247 | the bytes that serialize writes, in a growing buffer, or failure exactly past its maximum |
| `ScanResponses.SameBytes` | common/packet_format_impl.h:1152-1247 | the two sequences of writes, keys in five copies and values in up to three in the second, give the same bytes for every method and every list of pairs |
| `ScanResponses.Deserialize` | common/packet_format_impl.h:1250-1295 | what was encoded comes back for every method: the header fields it carries and any number of pairs of any length |
| `ScanResponses.ParseBack` | common/packet_format_impl.h:1250-1284 | the header fields come back |
| `ScanResponses.ReadPairs` | common/packet_format_impl.h:1286-1294 | the pairs come back |
| `ScanResponses.ReadPair` | common/val.c:369-416 | one key and one value of any length come back |
| `WireLayouts.HeaderLayout` | common/packet_format_impl.h:1152-1190 | for every method the offset and the bytes of each header field of a scan response |
| `WireLayouts.PairLayout` | common/packet_format_impl.h:1191-1198 | for every method the offset of each pair, with its key, length and value, and where the packet ends |
| `WireLayouts.OffsetsRight` | common/packet_format_impl.h:1309-1342 | the offsets of the server index and count and of the switch count are right for every method |
| `WireLayouts.SwitchIdWrong` | common/packet_format_impl.h:1354-1358 | the offset of the switch index is right if and only if the packet header is as long as the gap, and lies behind the header of the response for every method that has one |
| `ScanResponses.Padding` | common/val.c:8-17 | short values are padded to whole 8 bytes, long ones not |

## Left out

- Sockets, raw-socket headers, packet filters, thread affinity, ini files, latency reports, Python and Java scripts: input and output only.
- RocksDB, its options and checkpoints, and TommyDS: foreign libraries; the database is a finite map that can be copied.
- `udprecvlarge_multisrc` and `udprecvlarge_multisrc_dist`: their header sizes and offsets do not fit the packets as written; `WireLayouts.SwitchIdWrong` is the offset.
- The packet classes of large requests beyond the header that fragments repeat. The receive model takes the number that `get_packet_fragseq` yields; `LargeRequests.FragseqIff` is the class's own decoding, on a little-endian machine.
- A restart of the process, and what happens to the store's own files. Snapshot files are modelled as the values written (`DeletedSets.StoreThenLoad` is the round trip of the deletions); the database's sequence number among them has no effect, since `CreateCheckpoint` only writes to the variable it is loaded into.
- Bloom and counting filters, `ConcurrentSet`, `DynamicRulemap`, `BackupData`, `crc32`, `RecoverPkt` and the other packet classes: they would only add easy members.
- `ConcurrentMap::remove`, which does nothing, and `force_put`/`force_multiput`, the unconditional writes of the loader.
- The copies of the same headers in `distnocache/` and `distreach/`.
- Methods without snapshots or sequence numbers: the store is that of the methods that keep both.
- Tree nodes are sequences in an arena, and the in-place array work of one node is proved on arrays in `NodeArrays`; that the store of one node's arrays, count and fences is one step is justified by its lock and version, since a load from a node being changed may return anything.
- The tree's value cells are read and written in one step, which is what `SeqLock` proves of `ConcurrentVal`.
- The memory model is sequential consistency; fences and compiler reordering are not modelled.
- The 64-bit version of a tree node does not wrap in the model.
- TreeMap.ConcurrentMap.Scan: the object called sequentially; `TreeCursor.ScanSound` is the scan among writers, where a value may be older than one read after it.
- TreeMap.ConcurrentMap.RangeScan: likewise.
- TreeProgress.CanMove: a child pointer read from a node being changed is taken to be some node; the version check discards it.
- SeqLock.ReadIsWhole: holds for runs with fewer than 2^60 updates, because a wrapped version defeats the check; `SeqLock.IncrExact` states exactly when it wraps. The value is a sequence of words; a value behind a pointer is not modelled.
- MessageQueue.Fifo: one writer and one reader, as the queue is used; the indexes are read and written in one step each.
- ReceiveSafety.ReturnsExact: fragments are genuine and none arrives twice. Packets are parsed records; source addresses are not modelled. An overflowing ring ends the run, as in the source, and so does a fragment that its client's packet does not take, a genuine late one included: `ReceiveStops.EndsIff`.
- ReceiveSafety.ReturnsWhole: for runs in which an overtaking transmission fits; `ReceiveSafety.ReturnsExact` is what holds in all runs, and `ReceiveRepeats.PursuedIff` and `ReceiveRepeats.ParkedIff` say when a transmission that does not fit comes out whole all the same.
- ReceiveDelivery.Delivers: the fragments come from one client under one number, and no other transmission of that client in between; a transmission that overtakes one it does not fit is `ReceiveRepeats`.
- Fragments.RecvLarge: the client's filter on key and type is not modelled, since all fragments come from one request.
- DynamicArrays.DynamicArray.Reserve: capacities are unbounded integers; the contract shows that they stay below twice the size asked for or at the maximum.
- PktRingBuffers.PktRingBuffer.Push: the parallel vectors are one vector of records and the buffers in them are values.
- RocksdbWrappers.RocksdbWrapper.Get: each method is one step, as its lock makes it for the methods that write. `get` takes the lock shared and can still drop a deletion of number 0 from the set; two such reads at once are not modelled. The checks that end the program are the precondition `Allowed`.
- RocksdbWrappers.RocksdbWrapper.Remove: with a full set the oldest deletion is forgotten, and its key then reports number 0; `DeletedSets.AddKeepsSync` says which one.
- ScanResponses.Deserialize: the packet's fields are a list of byte strings; trailing bytes of a longer datagram are not modelled.
- Failed checks of the source (`INVARIANT`, `exit`) are results (`false`, `Exit`, `Stopped`) or, where they check the caller, preconditions.
