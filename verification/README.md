# Verified models of the rte_lib data structures

This project models the data structures in `rte_lib` and proves what they are for.

**The ring (`rte_lib/ring`).** One transition system covers all four synchronisation modes (multi-thread,
single-thread, relaxed-tail RTS, head-tail-locked HTS), mixed freely between producers and consumers, with the
peek operations and both implementations of the MT/ST head move. Every load, compare-and-swap, element copy and
store is a step of its own; any number of threads interleave. Code decisions are made on the 32-bit words;
unbounded positions stand beside them. `RingModel` has the steps, `RingInv`, `RingMoves`, `RingData` and
`RingWrites` the invariant and its preservation, `RingTheorems` what follows for whole runs, `RingLimits` what the
counting and the single-threaded operations do not promise. `CopyLoops` is the unrolled copying on arrays.

**The cuckoo hash (`rte_lib/rte_cuckoo_hash.c`).** `CuckooCells` shows that moving entries back along any path,
stale or not, loses and duplicates nothing. `CuckooState` is the table's invariant, `CuckooRely` what concurrent
writers may rely on, `CuckooSearch` the breadth-first search for a path. `CuckooWriters` has the atomic actions of a
writer, each with the guard of its locked region, and shows that every action keeps what the others rely on.
`CuckooSystem` interleaves any number of writers; its runs are what a single writer meets as "the others".
`CuckooTable` is the class with the operations: between any two locked regions and any two unlocked reads the others
may act, and an unlocked read may find anything, a locked region's work half done included. Each operation is shown
to be a thread of a writer's own actions. `CuckooRuns` shows that the table is the map that its log of adds
describes. `CuckooProgram` is the whole add as a program of each writer, one unlocked read at a time, interleaved with
all others; its runs are runs of the system. `CuckooOverlap` and `CuckooDuplicate` show where the code goes wrong.

**Index and arithmetic cores.** `Bitmap` (with `BitmapSpec`, `Slabs`) is the two-level bitmap with its cyclic
scan, `Jhash` (with `JhashBlocks`) the Jenkins hash, `Reciprocal` division by multiplication, `Sizing`
power-of-two rounding and the sizes computed with it. `Words` and `Bits` are shared arithmetic.

Assumptions:

- sequentially consistent memory and atomic compare-and-swap;
- fewer than 2^32 positions (RTS: counts) pass between a thread's snapshot and its compare-and-swap
  (`RingModel.InWindow`);
- results about several writers of a hash: it was created so that writers take the lock
  (`rte_lib/rte_cuckoo_hash.c:725-733`; otherwise the lock functions do nothing, `131-136`), and no two of their calls on the same end of the ring of free slots overlap
  (`CuckooSystem.Apart`). These calls are single-threaded ring operations made outside the lock
  (`rte_lib/rte_cuckoo_hash.c:95-96`, `176-177`, `505`, `543`, `553`, `564`, `570`), so the caller has to see to it;
- an add finds a free key slot when it takes one, which it does only for a key that it did not find (exhaustion is
  printed and then ignored, `rte_lib/rte_cuckoo_hash.c:506-508`);
- buckets, extendable buckets and the key store are zero when the table is created, although they come from `malloc`
  (`rte_lib/rte_cuckoo_hash.c:832`, `844`, `875`), and there are the `num_buckets` buckets that there are meant to
  be, although one is allocated (`832`);
- hash keys are compared on eight bytes (`rte_lib/rte_cuckoo_hash.c:83-84`); no added key equals the key of the
  unused slot 0.

Where the code does not do what one would expect, the exact condition is proved:

- Two overlapping single-threaded dequeues return the same object (`RingLimits.OverlapTakesTwice`). Two writers of a
  hash whose calls for a free slot overlap so get the same key slot, and the key that was added first is lost although
  its add succeeded (`CuckooOverlap.OverlapBreaks`). That calls do not overlap is just what it takes: from every
  state in which two overlap, two more steps break the table's accounts (`CuckooOverlap.OverlapIsUnsafe`); if they
  never overlap, every interleaving is safe (`CuckooSystem.SystemOk`, `CuckooSystem.InterleavingIsCooperative`).
- With extendable buckets and several writers the search from the secondary bucket misses that bucket's own list, so
  a key can be inserted twice: `CuckooRely.SearchGap` says exactly when, `CuckooDuplicate.DuplicateReached` gives a
  run of the program, with every search read slot by slot, from an empty table of 64 entries. With one writer, or
  without extendable buckets, keys stay distinct.
- `rte_ring_count` loads two tails one after the other. If the consumers pass the loaded producer tail in between, the
  result is not the difference of the positions, and an empty ring can be reported full: `RingLimits.CountLoads`,
  `RingLimits.FullAlthoughEmpty`.
- `-ENOSPC` from the extendable table keeps a key slot out of use for ever: `CuckooRuns.TableIsLog` counts them.
- A key equal to the key of the unused slot 0 overwrites that slot and is reported as absent if an empty slot of the
  bucket has its signature: `CuckooTable.Table.SearchAndUpdate`.
- `rte_ring_init` accepts a count of 0, and exact sizes from 2^31 on, and makes a ring of no size:
  `Sizing.RingInit`.
- `rte_ring_get_memsize_elem` multiplies on 32 bits, so a ring whose elements take 2^32 bytes or more gets too little
  memory: `Sizing.MemSize`. For a hash this begins at 2^29 entries, and with 2^30 its free-slot ring is refused:
  `Sizing.HashSizes`.
- `rte_jhash_32b` takes the byte length on 32 bits, so from 2^30 words on it hashes fewer: `Jhash.Hash32b`.
- The bitmap footprint wraps for the last 511 bit counts below 2^32: `Sizing.Footprint`.
- `rte_bitmap_set_slab` with a zero slab on an empty line makes the summary wrong: `Bitmap.Bitmap.SetSlab`.

## Model

| member | source | states |
|---|---|---|
| `RingTheorems.Reservations` | rte_lib/ring/rte_ring_c11_pvt.h:15-28 | In every state of every run, in every mix of modes: cons.tail <= cons.head <= prod.tail <= prod.head <= cons.tail + capacity; in-flight reservations of a side are disjoint and inside [tail, head), so no tail (RTS included) has passed a position whose owner is still copying; in MT, ST and HTS they tile [tail, head) |
| `RingTheorems.ClaimsAreExact` | rte_lib/ring/rte_ring_c11_pvt.h:54-104 | Every successful head move: the snapshot really is the head although only words were compared, the room computed earlier is between 0 and capacity and not more than the room there is now, the count granted follows from it, and an RTS head is within htd_max of its tail |
| `RingMoves.CasIsExact` | rte_lib/ring/rte_ring_generic_pvt.h:69-111 | The same for one state that satisfies the invariant, for both implementations of the head move |
| `RingTheorems.WaitIsExact` | rte_lib/ring/rte_ring_c11_pvt.h:24-27 | The 32-bit tail wait of an MT operation holds exactly when the unbounded positions are equal |
| `RingMoves.ReserveKeeps` | rte_lib/ring/rte_ring_c11_pvt.h:130-179 | A head move keeps the invariant of its side |
| `RingMoves.StoreTailKeeps` | rte_lib/ring/rte_ring_generic_pvt.h:28-43 | Publishing a tail (MT, ST, HTS) keeps the invariant, and the tail never goes back |
| `RingMoves.TurnIsLow` | rte_lib/ring/rte_ring_c11_pvt.h:20-28 | Only the oldest reservation of a side can publish: an operation at its tail store holds the lowest open ticket, starts at the tail and ends where the next reservation begins |
| `RingMoves.RtsCasIsExact` | rte_lib/ring/rte_ring_rts_elem_pvt.h:25-46 | A successful RTS tail compare-and-swap: the tail is what was loaded, and it jumps to the head that was loaded only if every operation below that head but this one has finished |
| `RingMoves.RtsCasTailKeeps` | rte_lib/ring/rte_ring_rts_elem_pvt.h:202-218 | The RTS tail move keeps the invariant and never goes back, even if the head moved after it was loaded |
| `RingTheorems.RtsRuns` | rte_lib/ring/rte_ring_rts_elem_pvt.h:34-64 | In every reachable state the 32-bit difference of the RTS head and tail counts is the number of operations in flight, at most the capacity, and equal counts mean equal positions |
| `RingTheorems.HtsSerial` | rte_lib/ring/rte_ring_hts_elem_pvt.h:42-107 | HTS and ST: at most one operation per side is in flight |
| `RingTheorems.PeekClamps` | rte_lib/ring/rte_ring_peek_elem_pvt.h:31-108 | Finishing a peek with a count above the reservation acts as 0, and changes nothing before its store |
| `RingTheorems.EnqueueAppends` | rte_lib/ring/rte_ring_peek.h:167-191 | A publish in MT, ST or HTS, by an enqueue or a peek finish of k, adds exactly its first k objects at the back; k = 0 restores the contents |
| `RingTheorems.DequeueTakes` | rte_lib/ring/rte_ring_peek.h:331-350 | A consumer's publish takes exactly its first k objects from the front, the ones it returned |
| `RingTheorems.ProducersOnlyAppend` | rte_lib/ring/rte_ring_rts_elem_pvt.h:70-118 | In every mode any producer step leaves the contents a prefix of the new contents |
| `RingTheorems.ConsumersOnlyTake` | rte_lib/ring/rte_ring_rts_elem_pvt.h:128-173 | In every mode any consumer step leaves a suffix of the contents |
| `RingTheorems.Delivered` | rte_lib/ring/rte_ring_elem_pvt.h:368-389 | At any time object j of a finished dequeue is the object that exactly one finished enqueue put at that position |
| `RingTheorems.Fifo` | rte_lib/ring/rte_ring_elem_pvt.h:321-343 | Whenever nothing is in flight, the enqueued objects in the order of head moves are the dequeued objects in the order of head moves followed by the contents: nothing lost, duplicated or reordered |
| `RingTheorems.RunOk` | rte_lib/ring/rte_ring.c:92-119 | From a reset ring, every step of every thread keeps the whole invariant, counters and data |
| `RingTheorems.CountIsLength` | rte_lib/ring/rte_ring.h:489-540 | With both tails loaded in one state, count is the number of objects across counter wraps; free count 0 means full and equal tails mean empty |
| `RingLimits.CountLoads` | rte_lib/ring/rte_ring.h:489-496 | With the producer tail loaded at step i of any run and the consumer tail at any later step j: the count is at most the capacity; it is the difference of the two positions if and only if the consumers have not passed the loaded producer tail, and then it is at most the length of the ring at either time and 0 exactly when the words are equal |
| `RingLimits.FullAlthoughEmpty` | rte_lib/ring/rte_ring.h:518-522 | A run in which the ring is empty at both loads and the count is the capacity |
| `RingLimits.EmptyHanded` | rte_lib/ring/rte_ring_c11_pvt.h:64-90 | In every mode and run, an operation that gives up, before the head went round since its snapshot, had less room than it asked for, or for a burst none |
| `RingLimits.OverlapTakesTwice` | rte_lib/ring/rte_ring_c11_pvt.h:147-179 | Two single-threaded dequeues that both load the head before either stores it return the same object, and the head moves once |
| `CopyLoops.WrittenAt` | rte_lib/ring/rte_ring_elem_pvt.h:129-151 | The simple form: slot p has object j exactly when p = (idx + j) mod size, every other slot is unchanged |
| `CopyLoops.RoundTrip` | rte_lib/ring/rte_ring_elem_pvt.h:259-281 | Dequeue at the same head returns what enqueue stored |
| `CopyLoops.Enqueue32` | rte_lib/ring/rte_ring_elem_pvt.h:20-60 | The loop unrolled by eight with its fall-through switch and its split at the end of the ring writes the simple form |
| `CopyLoops.Dequeue32` | rte_lib/ring/rte_ring_elem_pvt.h:154-194 | The unrolled loop reads the simple form and leaves the ring alone |
| `CopyLoops.EnqueueWide` | rte_lib/ring/rte_ring_elem_pvt.h:63-126 | The 64-bit loop (by four) and the 128-bit loop (by two) write slots (head + i) & mask |
| `CopyLoops.DequeueWide` | rte_lib/ring/rte_ring_elem_pvt.h:197-256 | They read those slots |
| `CopyLoops.EnqueueScaled` | rte_lib/ring/rte_ring_elem_pvt.h:129-151 | Elements of any other size, with index, count and size scaled to words, are written to the slots (head + i) & mask as whole elements |
| `CopyLoops.DequeueScaled` | rte_lib/ring/rte_ring_elem_pvt.h:259-281 | And read back as whole elements |
| `CopyLoops.ZeroCopySlots` | rte_lib/ring/rte_ring_peek_zc.h:98-118 | The zero-copy address pair, scaled to words and computed on 32 bits, names the words of the slots of the simple form in order, the second part exactly when the range wraps, if all slots fit twice into 2^32 words (as `Sizing.CopyFits` gives) |
| `CuckooCells.DisplaceCount` | rte_lib/rte_cuckoo_hash.c:316-387 | For any table, any hole and any path (stale, through empty slots, through one slot twice) the walk back changes how often each entry is stored only by the overwritten hole and the new entry |
| `CuckooCells.DisplaceHoused` | rte_lib/rte_cuckoo_hash.c:316-349 | And every entry stays in its primary or alternate bucket |
| `CuckooCells.AltTwice` | rte_lib/rte_cuckoo_hash.c:121-126 | The alternate of the alternate bucket is the bucket |
| `CuckooState.DisplaceKeeps` | rte_lib/rte_cuckoo_hash.c:292-391 | On a well-formed table the walk keeps the invariant and adds exactly the entry, or leaves the same entries |
| `CuckooState.LinkKeeps` | rte_lib/rte_cuckoo_hash.c:73-79 | Linking a free extendable bucket at the end of a list keeps all lists disjoint and acyclic |
| `CuckooState.Absent` | rte_lib/rte_cuckoo_hash.c:482-499 | A search of the primary bucket and the secondary's list that finds nothing means that the key is not in the table |
| `CuckooState.Findable` | rte_lib/rte_cuckoo_hash.c:476-479 | Every key of the table is in its primary bucket or in the list of its secondary bucket |
| `CuckooState.SlotPartition` | rte_lib/rte_cuckoo_hash.c:89-100 | In a well-formed table each key slot is free once, or referred to by exactly one bucket entry, or neither, which is what `Loose` means |
| `CuckooSystem.SlotsAccounted` | rte_lib/rte_cuckoo_hash.c:89-100 | In every state of every interleaving of any number of writers, without overlapping calls on the free ring, from the new table on: each key slot is free once, or referred to by exactly one bucket entry, or taken by exactly one writer, or lost |
| `CuckooState.FreeKeeps` | rte_lib/rte_cuckoo_hash.c:171-178 | Giving a slot back keeps that, with the enqueue as one step (its load and store are two in `CuckooSystem`) |
| `CuckooState.InitialIsGood` | rte_lib/rte_cuckoo_hash.c:1009-1011 | A new table is well formed and empty and all its slots are free |
| `CuckooRely.SearchGap` | rte_lib/rte_cuckoo_hash.c:300-314 | After the duplicate check before a move, the key is in the table if and only if it is in the extendable buckets of the bucket the search started from |
| `CuckooDuplicate.DuplicateReached` | rte_lib/rte_cuckoo_hash.c:557-566 | A hash for 64 entries with the extendable table: a run of the program from the new table, without overlapping free-ring calls, after which a key is there twice. Two writers add it; the first searches from both buckets in vain, visits all 124 nodes each time, and extends the secondary bucket's list; a third writer's walk moves entries, a fourth's is refused half way and leaves a slot empty; the second then finds that slot from the secondary bucket and does not see the extended list |
| `CuckooDuplicate.GetStalled` | rte_lib/rte_cuckoo_hash.c:417-445 | That run up to the point where the list is extended: no slot in any of the 124 buckets that a search from either bucket visits is empty |
| `CuckooRely.AddedDistinct` | rte_lib/rte_cuckoo_hash.c:217-222 | A new entry keeps keys distinct exactly when its key was not there |
| `CuckooRely.AddedRely` | rte_lib/rte_cuckoo_hash.c:226-262 | An insert leaves alone what other writers rely on: their entries, indexes and taken slots |
| `CuckooRely.UpdatedRely` | rte_lib/rte_cuckoo_hash.c:188-205 | So does replacing data, which changes the map at that index only |
| `CuckooWriters.ActKeeps` | rte_lib/rte_cuckoo_hash.c:180-391 | Every atomic action of a writer (update, take a slot, fill it, insert, move along any path, put into a list, link a bucket, give a slot back, leave it) keeps the table well formed and leaves alone the entries and the taken slots of all others |
| `CuckooWriters.ThreadRely` | rte_lib/rte_cuckoo_hash.c:459-656 | Along any sequence of own actions and steps of others no entry is lost or moves to another index, and keys stay distinct without extendable buckets |
| `CuckooSystem.StepKeeps` | rte_lib/rte_cuckoo_hash.c:89-100 | With the load and the store of each free-ring call as separate steps: any step of any writer keeps table, slots and free ring well formed and leaves alone what every other writer relies on, as long as calls on one end of that ring do not overlap |
| `CuckooSystem.SystemOk` | rte_lib/rte_cuckoo_hash.c:459-656 | So this holds in every state of every interleaving of any number of writers |
| `CuckooSystem.InterleavingIsCooperative` | rte_lib/rte_cuckoo_hash.c:485-505 | Whatever other writers do by these actions meets the assumption under which the operations of the table are proved |
| `CuckooProgram.ReachOk` | rte_lib/rte_cuckoo_hash.c:459-656 | The whole add as a program of each writer: whatever any number of writers do in it, with unlocked reads one at a time, is a run of the actions above, so table, slots and free ring are well formed in every state as long as free-ring calls do not overlap |
| `CuckooProgram.ReadOn` | rte_lib/rte_cuckoo_hash.c:417-445 | A search that reads full slots only goes on, slot by slot, to the queue that these slots determine, and after 992 slots gives up |
| `CuckooOverlap.OverlapBreaks` | rte_lib/rte_cuckoo_hash.c:503-541 | If calls for a slot overlap: for any two keys with different buckets a run from the new table in which both writers get slot 1, two entries refer to it, it holds the second key and the first is lost |
| `CuckooOverlap.TakesOverlap` | rte_lib/rte_cuckoo_hash.c:89-100 | In every well-formed state, two dequeues that have both loaded the head give both writers the first free slot |
| `CuckooOverlap.FreesOverlap` | rte_lib/rte_cuckoo_hash.c:171-178 | In every well-formed state, two enqueues that have both loaded the tail lose the first writer's slot: it is not free, in no entry, and nobody has it |
| `CuckooOverlap.OverlapIsUnsafe` | rte_lib/rte_cuckoo_hash.c:503-506 | From every well-formed state in which calls on one end of the free ring overlap, two more steps lead to a state that is not |
| `CuckooSearch.WalkableInserts` | rte_lib/rte_cuckoo_hash.c:325-333 | A walk is not refused if each entry's alternate bucket is that of the place before it and no bucket comes twice |
| `CuckooSearch.PathIsWalkable` | rte_lib/rte_cuckoo_hash.c:316-333 | In a search tree read from an unchanged table, the path from the first node of any bucket back to the start meets those two conditions |
| `CuckooSearch.NotRefused` | rte_lib/rte_cuckoo_hash.c:417-428 | The first empty slot that a search of an unchanged table reaches takes the entry: its path is the shortest to that bucket, so it is walkable |
| `CuckooTable.Table.constructor` | rte_lib/rte_cuckoo_hash.c:853-854 | From zeroed buckets and key store, filling the free rings gives the well-formed empty table |
| `CuckooTable.Table.SearchAndUpdate` | rte_lib/rte_cuckoo_hash.c:180-210 | For any key, the dummy key included: -1 and no change exactly when no entry of the bucket has the key, else its index with the data replaced; an empty slot that matches the dummy key gives -1 and overwrites key slot 0 only |
| `CuckooTable.Table.Insert` | rte_lib/rte_cuckoo_hash.c:213-270 | Adds exactly the new entry to the primary bucket, or updates an entry that came in between, or changes nothing, and then the bucket is full |
| `CuckooTable.Table.WalkBack` | rte_lib/rte_cuckoo_hash.c:316-386 | The loop computes the walk `CuckooCells.Displace` along the parents of the leaf |
| `CuckooTable.Table.MoveInsert` | rte_lib/rte_cuckoo_hash.c:273-391 | 0: exactly the new entry was added, whatever moved; 1: an entry was updated; -1: the same entries as before, and the leaf's slot was taken or the walk refused |
| `CuckooTable.Table.Expand` | rte_lib/rte_cuckoo_hash.c:417-442 | A node's eight children go to queue places 8 * tail + 1 and following, with matching buckets and strictly earlier parents, within the queue of 1000, whatever the unlocked reads find |
| `CuckooTable.Table.MakeSpace` | rte_lib/rte_cuckoo_hash.c:395-446 | Whatever the unlocked reads find: at most 124 nodes are expanded, so the search ends; with any other writers no entry is lost and the new slot stays this writer's until it is in the table; alone, it adds the entry or returns -ENOSPC with the table exactly as it was and no empty slot in any of the 124 buckets it searched |
| `CuckooTable.Table.FillChain` | rte_lib/rte_cuckoo_hash.c:592-612 | The first empty place in the secondary bucket's list takes exactly the new entry, or the whole list is full |
| `CuckooTable.Table.LinkNew` | rte_lib/rte_cuckoo_hash.c:614-651 | A free extendable bucket, if there is one, is linked and takes exactly the new entry |
| `CuckooTable.Table.AddExtended` | rte_lib/rte_cuckoo_hash.c:574-656 | Update, insert into the list, or -ENOSPC with an unchanged table, a full list and no free bucket; the slot goes back only after an update |
| `CuckooTable.Table.Add` | rte_lib/rte_cuckoo_hash.c:459-656 | With other writers whose free-ring calls do not overlap (`CuckooSystem.Apart`): the call is a thread of own actions and steps of others, no entry is lost or moves to another index, a result >= 0 is the index of the key, keys stay distinct without extendable buckets. Alone, with a free slot or the key in the table: an existing key keeps its index and gets the new data, a new key gets the first free slot, -ENOSPC means that there is no room within reach and leaves map and buckets unchanged; slots are conserved except for the one kept by the extendable table's -ENOSPC |
| `CuckooRuns.TableIsLog` | rte_lib/rte_cuckoo_hash.c:658-663 | After any run of adds by one writer, updates in a full table included, each key has the data and index of its last successful add, no key is there twice, and exactly one slot per -ENOSPC of an extendable table is out of use |
| `CuckooRuns.SameIndex` | rte_lib/rte_cuckoo_hash.c:200-204 | All successful adds of one key return the same index |
| `CuckooRuns.AddAll` | rte_lib/rte_cuckoo_hash.c:658-663 | Adding keys to a new table with the add operation itself, until no slot is free, gives such a run, so the table agrees with its log for every key |
| `BitmapSpec.ScanEnumerates` | rte_lib/include/rte_bitmap.h:129-137 | From a fresh scan state the k-th scan of an unchanged bitmap returns the k-th non-zero slab in increasing order, and after the last the first again |
| `BitmapSpec.NonZerosAre` | rte_lib/include/rte_bitmap.h:535-556 | That order lists every non-zero slab once, increasing |
| `BitmapSpec.LineToSlab` | rte_lib/include/rte_bitmap.h:527-533 | The first non-zero slab of the next non-empty line is the next non-zero slab |
| `BitmapSpec.EmptySet` | rte_lib/include/rte_bitmap.h:559-575 | All slabs are zero exactly when the set of bits is empty |
| `Bitmap.Bitmap.Get` | rte_lib/include/rte_bitmap.h:355-364 | Non-zero exactly for members of the set |
| `Bitmap.Bitmap.Set` | rte_lib/include/rte_bitmap.h:375-390 | Adds exactly that bit and keeps each array1 bit equal to "its line is not empty" |
| `Bitmap.Bitmap.SetSlab` | rte_lib/include/rte_bitmap.h:403-417 | Adds exactly the slab's bits; the summary stays right if and only if the slab is not zero or its line was not empty |
| `Bitmap.Bitmap.LineNotEmpty` | rte_lib/include/rte_bitmap.h:421-433 | Non-zero exactly when some slab of the line is not zero |
| `Bitmap.Bitmap.Clear` | rte_lib/include/rte_bitmap.h:468-498 | Removes exactly that bit and keeps the summary |
| `Bitmap.BitsAbove` | rte_lib/include/rte_bitmap.h:84-88 | The masked slab's lowest bit is the next bit above the offset, and it is zero exactly when there is none |
| `Bitmap.Bitmap.ScanInit` | rte_lib/include/rte_bitmap.h:128-137 | The next scan starts at slab 0 |
| `Bitmap.Bitmap.ScanSearch` | rte_lib/include/rte_bitmap.h:501-525 | Finds the first set array1 bit after the current one, going round, the current one last; fails only if array1 is zero |
| `Bitmap.Bitmap.ScanRead` | rte_lib/include/rte_bitmap.h:536-556 | Returns the first non-zero slab in the rest of the line, or there is none |
| `Bitmap.Bitmap.Scan` | rte_lib/include/rte_bitmap.h:577-593 | Returns 0 exactly when the set is empty, else the next non-zero slab from the cursor on, going round, and the cursor moves behind it |
| `Bitmap.Bitmap.ScanTimes` | rte_lib/include/rte_bitmap.h:559-593 | n scans with the scan operation itself return the non-zero slabs in increasing order, round and round, or nothing if the set is empty |
| `Reciprocal.DivideIsExact` | rte_lib/include/rte_reciprocal.h:46-51 | For every 32-bit dividend and every reciprocal that satisfies the relation of Granlund and Montgomery the result is the quotient |
| `Reciprocal.FinishIsExact` | rte_lib/include/rte_reciprocal.h:50-50 | For any width: the sum of the last line does not overflow and the shifts give the quotient |
| `Reciprocal.MulHi` | rte_lib/include/rte_reciprocal.h:53-82 | The portable form is floor(x * y / 2^64) |
| `Reciprocal.Divide64` | rte_lib/include/rte_reciprocal.h:84-90 | The 64-bit division is exact |
| `Reciprocal.ReciprocalExists` | rte_lib/include/rte_reciprocal.h:92-93 | Every divisor has such a reciprocal, with the usual choice of m |
| `JhashBlocks.FromMemoryIsHash` | rte_lib/rte_jhash.h:115-162 | Reading a key block by block with masks for the last block hashes the bytes of the key; the bytes after it do not matter |
| `JhashBlocks.HashAligned` | rte_lib/rte_jhash.h:115-162 | The aligned loop and switch compute that |
| `JhashBlocks.HashShifted` | rte_lib/rte_jhash.h:163-229 | So does the loop that shifts aligned words together, at every alignment and length |
| `Jhash.ShiftIs` | rte_lib/rte_jhash.h:71-71 | BIT_SHIFT of two aligned words is the unaligned word between them |
| `Jhash.MixIsReversible` | rte_lib/rte_jhash.h:48-55 | Mixing can be undone, so different states stay different |
| `Jhash.TwoHashes` | rte_lib/rte_jhash.h:92-235 | Both hashes depend on the key's bytes, its length and the seeds only, whichever path is taken |
| `Jhash.Hash32b` | rte_lib/rte_jhash.h:314-322 | For every length the word version is the byte version on the same memory, with the byte length taken modulo 2^32 |
| `Jhash.WordFormsAre` | rte_lib/rte_jhash.h:324-391 | The 1, 2 and 3 word forms equal the general hash of the same words |
| `Sizing.Combine32` | rte_lib/include/rte_common.h:450-460 | All bits up to the highest set bit |
| `Sizing.Combine64` | rte_lib/include/rte_common.h:472-482 | The same on 64 bits |
| `Sizing.Align32` | rte_lib/include/rte_common.h:513-520 | The least power of two not below x for 1 <= x <= 2^31, and 0 for every other x |
| `Sizing.Align64` | rte_lib/include/rte_common.h:548-555 | The same on 64 bits |
| `Sizing.AlignPrev32` | rte_lib/include/rte_common.h:531-537 | The greatest power of two not above x, and 0 for 0 |
| `Sizing.AlignPrev64` | rte_lib/include/rte_common.h:566-572 | The same on 64 bits |
| `Sizing.PowerTest` | rte_lib/ring/rte_ring.c:51-51 | The mask test accepts exactly the powers of two among the positive counts |
| `Sizing.RingInit` | rte_lib/ring/rte_ring.c:219-231 | Which counts are accepted, and an accepted ring has capacity < size = power of two if and only if its count is positive (exact size: below 2^31) |
| `Sizing.RingIsValid` | rte_lib/ring/rte_ring.c:219-231 | Such a ring meets what the ring theorems ask of a configuration |
| `Sizing.MemSize` | rte_lib/ring/rte_ring.c:58-79 | -EINVAL exactly for element sizes that are not multiples of four and counts that are neither 0 nor powers of two below 2^31; otherwise the memory holds header and all elements if and only if count * esize < 2^32 |
| `Sizing.CopyFits` | rte_lib/ring/rte_ring_elem_pvt.h:129-151 | Such memory also keeps the scaled indexes of the copy loops within 32 bits, as these assume |
| `Sizing.HashSizes` | rte_lib/rte_cuckoo_hash.c:766-780 | The buckets hold all entries, the ring of extendable buckets has memory and room for every bucket, and the ring of free slots has memory and room for every slot if and only if there are fewer than 2^29 entries |
| `Sizing.Footprint` | rte_lib/include/rte_bitmap.h:96-126 | Context, array1 and array2 fit without overlap and hold all bits if and only if n_bits <= 2^32 - 512 |

## Left out

- The ring's protocol is a state machine on values, not methods on shared memory: memory barriers, prefetching and weak memory ordering are not captured.
- The generic file's inline-assembly compare-and-swap without its lock prefix (rte_lib/include/generic/rte_atomic.h:436-438): taken as atomic, as documented.
- The same ring memory seen as 32-, 64- and 128-bit words: each copy loop has its own array type.
- The copy loops in the transition system move one object per step; their unrolling is proved separately in `CopyLoops`.
- Zero-copy start and finish beyond the address pair: they are the peek operations with the copy done by the caller.
- get_sync_type, ring creation by name, lookup, free, dump, memory zones and tail-queue lists: resource plumbing.
- The hash's reader-writer lock is mutual exclusion between locked regions; hardware transactions, the lock-free reader's change counter and local slot caches are not modelled.
- rte_hash_create beyond sizing and slot population: allocation and error cleanup.
- CuckooTable.Table.Add: not for a new key when no slot is free, nor for a key equal to the key of the unused slot 0: the code then writes into slot 0 and goes on with it.
- CuckooRuns.TableIsLog: not for runs with such a call.
- CuckooRuns.SameIndex: not for runs with such a call.
- CuckooTable.Table.Insert: not for the key of slot 0; `CuckooTable.Table.SearchAndUpdate` has its case.
- CuckooTable.Table.MoveInsert: not for the key of slot 0.
- CuckooTable.Table.Expand: not for the key of slot 0.
- CuckooTable.Table.MakeSpace: not for the key of slot 0.
- CuckooTable.Table.AddExtended: not for the key of slot 0.
- CuckooTable.Table.constructor: the memory from `malloc` is taken as zeroed.
- CuckooState.FreeKeeps: the single-producer enqueue is one step here, two in `CuckooSystem`.
- RingTheorems.CountIsLength: both tails are loaded in one state; `RingLimits.CountLoads` has the general case.
- Stores inside one locked region one by one, except as an unlocked read may find them (`CuckooWriters.World`).
- Keys longer than eight bytes: the source compares only the first eight.
- rte_bitmap_init_with_all_set, reset and free, and the variant with sixteen slabs per cache line.
- Reciprocal.ReciprocalExists: shows that suitable values exist, because the source of rte_reciprocal_value, which is only declared at the cited lines, is not part of this model.
- Big-endian BIT_SHIFT of the hash; keys of type uint32_t * are aligned unless the machine is x86.
- The switches of the last hash block are written as one conditional per word, with a mask by the number of bytes covered.
- Spinlock, ticket lock and reader-writer lock implementations, declaration-only EAL headers.
- l3fwd, rpc_shm and libzsim: application and simulator plumbing around these structures.
