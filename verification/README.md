# Verified models of the UPC++ runtime core

This project models the parts of the UPC++ runtime whose correctness is hardest to see from the code, and
proves what they promise for every input, every run and every interleaving:

* the shared-heap allocator (`src/dl_malloc.c` in its mspace build): boundary tags, small bins, bitwise tries
  with rings of equal size, designated victim and top, with malloc, free and memalign as methods on a heap object;
* the `upcxx::copy` protocol (`src/copy.hpp`): all its paths as continuations on a machine of tasks, messages
  and byte-wise transfers that interleave arbitrarily, with a user who reuses buffers as soon as he may;
* completion objects (`src/completion.hpp`): promise counts, references and undischarged callbacks;
* function tokens (`src/ccs.*`, `src/global_fnptr.hpp`): the per-thread segment caches, collective verification,
  the epoch protocol, the wire format, and the way from a pointer on one rank to a pointer on another;
* three smaller cores: the two-contribution broadcast, the 128-bit segment hash, and the device-heap indices.

`dafny verify dfyconfig.toml` checks everything.

## How to read it

**Allocator.** `Words`, `BinMaps`, `BinIndex`, `Alignment` hold the bit arithmetic, on naturals with explicit
width. `TrieShape` is a trie as a map from sizes to levels; `TreeLinks`, `TreeUnlink`, `TreeCases` relate the
words in memory to it; `TrieSearch` holds the best-fit argument; `TreeBins` and `SmallBins` are the bin objects.
`HeapCore` is the segment by its tags, `Mspace` the allocator. Memory words are maps from addresses; the size
and flag bits of a head word are kept as a record. The constants are those of a 64-bit build without footers
(alignment 16, minimal chunk 32, overhead 8). The heap is one external segment; its first chunk is the one
behind the malloc state, and `sys_alloc` fails without a change, as it does at the footprint limit
(src/dl_malloc.c:4059-4063). The portable `compute_tree_index` is modelled; the GNUC variant truncates
`S >> 8` to 32 bits (src/dl_malloc.c:2844), so the two agree below 2^40 only.

**Copy.** `CopyMachine` says how programs run; `CopyPaths` transcribes every continuation of the source;
`CopySoundness` proves that programs which pass an ownership check are safe in every interleaving and end
properly; `CopyChecks` shows that each path passes; `CopyTheorems` and `CopyEntry` draw the conclusions. The
sets named `give` in programs are ownership annotations; no step of the machine depends on them. `Terms` says for a copy
on which rank each completion and each object belongs and which memory a rank can reach; safety is stated on these.

**Tokens.** A hash is a number and zero the empty hash. `SegmentCache` has the cache object; `SegmentTable`,
`Verification` and `Following` say what loading and verification do to the map, to its indices and to caches filled
before; `Tokens` says what answers mean; `Process` is one process with its methods, `Threads` runs it with any number
of threads. `Agreement` puts the ranks together; `Misnaming`, `Duplicates` and `CacheDependence` hold what goes wrong.
`EpochProtocol` has threads against a verification, and `EpochRefinement` shows that its steps are those of the code.
`TokenWire` is the format, `EndToEnd` the whole way. The loader's segment map is an input: proper ranges with gaps
between them, a segment flagged bad exactly when it has no hash of its own, and from one reading to the next only
additions.

**Device heaps.** `HeapIndex` is the table with its methods and what holds of every sequence of calls on it;
`DeviceRuns` is how the devices use it.

## What turned out not to hold, and exactly when it does

* A reference put from device memory that reports source but not operation completion may delete its completion
  state before the device copy reports on it (src/copy.hpp:597, 668, 685): `CopyTheorems.SafeExactlyWhen`.
* Rounding an alignment above 2^63 that is not a power of two never ends (src/dl_malloc.c:4898-4902):
  `Alignment.ShiftsStayBelow`, against `Alignment.RoundUp`.
* The cache searches accept both ends of a segment, the scan of the map neither. So an end is answered when a usable
  cache covers it and refused by the scan otherwise, `Process.Process.Tokenize` with `Tokens.EndpointsOnly`;
  `CacheDependence.EndDependsOnCache` is a run with both answers.
* A segment without a hash of its own is flagged bad and refused by the scan, but a cache may hold it: tokenization is
  refused exactly when no cache covers the pointer, `Tokens.BadRefused` with `Process.Process.Tokenize`. It is answered
  after a duplicate was loaded behind a cached segment, `CacheDependence.CachedThenDuplicated`, and after a token was
  detokenized through it (src/ccs.hpp:310-332 has no such test), `CacheDependence.DetokenizedThenTokenized`.
* A failed `verify_segment` call that names a segment with an index makes this rank forget that the segment was
  verified. The tables stay consistent exactly when the call succeeds or names a segment without an index,
  `Verification.ConsistentExactlyWhen`; without such calls indices agree for ever, `Agreement.IndicesAgree`; after any
  such call they can be driven apart, `Misnaming.MisnamedCallsDisagree`, with an instance in
  `Misnaming.ConcreteMisnaming`. Calls that name one segment on all ranks are never of this kind,
  `Agreement.NeverMisnamed`.
* A second segment with the hash of a numbered one is numbered again by the next `verify_all` on a rank that loaded it,
  `Duplicates.DuplicateNumberedAgain`. After a load, the next `verify_all` leaves every index its meaning exactly when
  the load brought no such segment, `Duplicates.NumberingKeptExactlyWhen`, and keeps all that later calls build on
  exactly when it brought no bad segment at all, `Duplicates.TableKeptExactlyWhen`. Agreement over whole runs is stated
  for maps without bad segments.
* `verify_segment` tests its limit so that index `max_segments_`, one past the table, is still accepted
  (src/ccs.cpp:1052-1056, src/backend/gasnet/runtime.cpp:871): `Verification.IndexInTable`.
* The hash step uses the value before the byte was mixed in for its shifted term, and sign-extends bytes from 0x80
  on; among all bytes it is the FNV-1a step only for the zero byte: `Fnv.IsFnv1aOnlyForZero`.
* As an interface, `alloc_index` may hand out a reference index that is held already: a slot is taken only when its heap
  is in the table. This happens in a run exactly when some allocation meets a first empty slot that is pending,
  `HeapIndex.HandedTwiceExactlyWhen`. The devices never meet it: they register an index before the next allocation, and
  a failure in between ends the process (src/cuda.cpp:252-281, src/hip.cpp:293-314, src/ze.cpp:564-634), so over every
  run of opening and closing devices no index is given twice and the count is that of the occupied slots,
  `DeviceRuns.IndicesNeverCollide` and `DeviceRuns.AlwaysSettled`.
* The documentation of `activate` assumes that the segment is not cached yet (src/ccs.cpp:918-923). Tokenization
  under enforced verification does not meet that, so the model allows duplicates and the invariant holds with them.

## Model

| member | source | states |
|---|---|---|
| BinMaps.IsMarked | src/dl_malloc.c:2925-2931 | a map test finds exactly whether the bin is in the marked set |
| BinMaps.Mark | src/dl_malloc.c:2925-2929 | marking adds the bin to the set and nothing else |
| BinMaps.Clear | src/dl_malloc.c:2926-2930 | clearing removes the bin and nothing else |
| BinMaps.FirstMarked | src/dl_malloc.c:2934-2983 | the word tricks on the least bit find the smallest marked bin |
| BinMaps.MarkedAbove | src/dl_malloc.c:2937-2937 | masking with left_bits leaves exactly the marked bins above a given one |
| BinMaps.LowBits | src/dl_malloc.c:5518-5534 | the two low bits of the shifted small map tell whether the bin or the next is marked, and which |
| BinMaps.LeftSmallBits | src/dl_malloc.c:5535-5540 | shifting back and masking leaves the marked bins above the requested one |
| BinMaps.LeastBitIsPower | src/dl_malloc.c:2934-2934 | x and -x have exactly the least set bit in common |
| BinIndex.TreeIndexBits | src/dl_malloc.c:2884-2901 | the bin of a size is given by its leading two bits, in every size range |
| BinIndex.TreeIndexRange | src/dl_malloc.c:2914-2916 | a size lies between the minimum of its bin and that of the next |
| BinIndex.BinOrder | src/dl_malloc.c:2884-2901 | a larger bin holds only larger sizes |
| BinIndex.SameBinSameLead | src/dl_malloc.c:2884-2911 | sizes of one bin agree in all bits above the level where its trie starts |
| BinIndex.WalkStart | src/dl_malloc.c:2909-2911 | shifting a size by the bin's left shift puts its first free bit on top |
| TrieShape.DepthBound | src/dl_malloc.c:2905-2911 | a trie is never deeper than the size bits its bin leaves free |
| TrieShape.LeftBelowRight | src/dl_malloc.c:2360-2389 | every size below a left child is smaller than every size below the right one |
| TrieShape.SwapSize | src/dl_malloc.c:3720-3789 | a leaf below may take the place of an inner node without breaking the trie |
| TrieShape.AddChild | src/dl_malloc.c:3660-3684 | a size hung at the free side its bits select keeps the trie a trie |
| TreeLinks.RootAdded | src/dl_malloc.c:3660-3666 | a first chunk becomes the root of its bin and keeps the invariant of all tree bins |
| TreeLinks.ChildAdded | src/dl_malloc.c:3668-3684 | a chunk of a new size hung below its parent keeps it |
| TreeLinks.RingJoined | src/dl_malloc.c:3685-3697 | a chunk of a known size joins the ring of that size and keeps it |
| TreeUnlink.LeafGone | src/dl_malloc.c:3720-3789 | cutting off a leaf that is alone on its ring keeps the invariant |
| TreeCases.MemberCase | src/dl_malloc.c:3722-3733 | removing a ring member that is not the tree node keeps the invariant |
| TreeCases.HeadCase | src/dl_malloc.c:3722-3788 | replacing a tree node by its ring predecessor keeps the invariant |
| TreeCases.LeafCase | src/dl_malloc.c:3736-3788 | removing a leaf keeps the invariant |
| TreeCases.SwapCase | src/dl_malloc.c:3736-3788 | replacing an inner node by a leaf found below it keeps the invariant |
| TreeBins.TreeBins.Insert | src/dl_malloc.c:3652-3701 | the bins hold exactly one chunk more, and trie, rings, parents and map stay right |
| TreeBins.TreeBins.Unlink | src/dl_malloc.c:3720-3789 | the bins hold exactly one chunk less, in all four cases, and everything stays right |
| TreeBins.TreeBins.BestFit | src/dl_malloc.c:4438-4484 | the chunk found has the least size not below the request among all tree chunks; none is found only if none fits |
| TreeBins.TreeBins.LeastChunk | src/dl_malloc.c:4509-4524 | the chunk found is the smallest of all tree bins |
| TreeBins.TreeBins.DescendFor | src/dl_malloc.c:4444-4466 | after the descent by bits, the best so far and the last right subtree not taken cover all fitting chunks of the bin |
| TreeBins.TreeBins.NextBin | src/dl_malloc.c:4467-4475 | the root of the next marked bin covers what can still fit |
| TreeBins.TreeBins.Leftmost | src/dl_malloc.c:4477-4484 | the least chunk of a subtree lies on its leftmost path |
| TrieSearch.DescentStep | src/dl_malloc.c:4449-4465 | one step down keeps that nothing fitting is lost |
| TrieSearch.LeftmostStep | src/dl_malloc.c:4477-4484 | one step left keeps it too |
| SmallBins.SmallBins.Insert | src/dl_malloc.c:3574-3590 | the chunk comes first in the list of its size, all lists stay linked rings, the map stays accurate |
| SmallBins.SmallBins.Unlink | src/dl_malloc.c:3593-3616 | the chunk leaves its list wherever it stood; the bit is cleared exactly when it was the last |
| SmallBins.SmallBins.UnlinkFirst | src/dl_malloc.c:3619-3634 | the first chunk of a marked bin is taken |
| HeapCore.LiveDisjoint | src/dl_malloc.c:3223-3302 | blocks handed out never overlap |
| HeapCore.TotalIsConstant | src/dl_malloc.c:3427-3485 | the sizes of all chunks always add up to the segment |
| HeapCore.AllFreeCoalesces | src/dl_malloc.c:4367-4433 | with nothing handed out the segment is one top chunk |
| HeapCore.UseSplitOk | src/dl_malloc.c:4488-4500 | handing out the low part of a free chunk keeps tags, tiling and neighbours consistent |
| HeapCore.MergeOk | src/dl_malloc.c:4367-4433 | merging a chunk with its free neighbours keeps them consistent |
| HeapCore.MergeTopOk | src/dl_malloc.c:4397-4407 | merging into top does too |
| HeapCore.CutUsedOk | src/dl_malloc.c:4936-4957 | cutting a live chunk in two does too |
| Mspace.Mspace.constructor | src/dl_malloc.c:5403-5424 | a new space is one top chunk with empty bins and meets the whole invariant |
| Mspace.Mspace.InsertChunk | src/dl_malloc.c:3793-3795 | a free chunk goes to the one bin for its size and the invariant is complete again |
| Mspace.Mspace.UnlinkChunk | src/dl_malloc.c:3797-3799 | a binned chunk is taken out of exactly the bin that holds it |
| Mspace.Mspace.Malloc | src/dl_malloc.c:5504-5616 | null, without a change, exactly when the request is not below 2^64 - 128, or no free chunk has `max(32, bytes + 8)` bytes and top is not larger than the padded request; otherwise a block disjoint from all live ones with size in [nb, nb+32), nb the least multiple of 16 with room for the request, cut from the chunk `Chosen` names: a best fit in the bins, or else the victim, or else top; what is left of it becomes the victim, goes to the bins, or stays victim or top, as `Leaves` says |
| Mspace.Mspace.MallocSmall | src/dl_malloc.c:5511-5565 | a small request is served from the bins exactly when some binned chunk fits and, should the victim fit, fits exactly; the chunk taken is the smallest binned one that fits, and what is left of it, if at least 32 bytes, is the new victim |
| Mspace.Mspace.MallocAbove | src/dl_malloc.c:5535-5565 | without an exact fit and a fitting victim, the next small bin or the trees give the smallest binned chunk that fits; if neither does none fits |
| Mspace.Mspace.TmallocLarge | src/dl_malloc.c:4438-4506 | a chunk is taken exactly when some binned chunk fits and is strictly smaller than a fitting victim, and it is a best fit among all binned chunks |
| Mspace.Mspace.MallocLarge | src/dl_malloc.c:5568-5574 | the same for any large request, with empty trees or not |
| Mspace.VictimFitsBest | src/dl_malloc.c:4486-4488 | if tmalloc_large yields, every binned chunk that fits is at least as large as the fitting victim |
| Mspace.Mspace.TmallocSmall | src/dl_malloc.c:4509-4544 | the chunk taken is the smallest of all tree chunks, and what is left of it, if at least 32 bytes, is the new victim |
| Mspace.Mspace.UseVictim | src/dl_malloc.c:5575-5594 | the block is the old victim, split or used up |
| Mspace.Mspace.SplitTop | src/dl_malloc.c:5596-5606 | the block is the low end of the old top, and top is what remains |
| Mspace.Mspace.Dispose | src/dl_malloc.c:4367-4433 | the chunk is no longer live, every other block is untouched, the invariant (no two free chunks adjacent, all binned) holds again; with the free chunks that touch it, it joins top if it reaches top, takes the place of the victim if that is one of them, and is a binned chunk otherwise |
| Mspace.Mspace.Free | src/dl_malloc.c:5618-5717 | null is ignored; a live block is returned as by Dispose |
| Mspace.Mspace.InternalMemalign | src/dl_malloc.c:4894-4966 | null, without a change, exactly when the request with room to align it is too large or cannot be served; otherwise the block is carved out of the chunk malloc chooses for the larger request: at its start if that is aligned, or else at the first aligned spot that leaves 32 bytes in front, and cut to size exactly when more than 32 bytes are over; leader and tail are free again |
| Mspace.AlignedSpot | src/dl_malloc.c:4916-4930 | the spot found is aligned, leaves a leader of at least 32 bytes, and lies within the slack asked for |
| Mspace.Mspace.Memalign | src/dl_malloc.c:5816-5825 | up to an alignment of 16 it is malloc; above, a block at a multiple of the least power of two not below the alignment, as internal_memalign carves it, or null exactly when that gives none |
| Mspace.Request2Size | src/dl_malloc.c:2233-2238 | the least size of a chunk for the request: the least multiple of 16 that is at least 32 and leaves 8 bytes over the request |
| Mspace.Run | src/dl_malloc.c:3459-3485 | over every run of allocations, aligned allocations and frees, each reply and each change is what the operation promises of the space the one before it left; at every point the program holds exactly the live chunks, the invariant holds and sizes add up; whenever everything is given back there is the single top chunk |
| Mspace.Perform | src/dl_malloc.c:5504-5825 | one operation of a run keeps the whole invariant, with the program holding exactly the live chunks |
| Mspace.Mspace.EvenBins | src/dl_malloc.c:5518-5534 | every other small bin is always empty |
| Alignment.RoundUp | src/dl_malloc.c:4896-4902 | the least power of two not below the alignment and 32, for alignments up to 2^63 |
| Alignment.ShiftsStayBelow | src/dl_malloc.c:4898-4902 | above 2^63 no number of shifts reaches the alignment |
| Alignment.AndHigh | src/dl_malloc.c:4923-4925 | masking with the negated power rounds down to a multiple |
| Alignment.PowerTest | src/dl_malloc.c:4898-4898 | a and a-1 share no bit exactly when a is a power of two |
| CopySoundness.ActSound | src/copy.hpp:318-689 | an action that passes the check changes only what its task owns, touches only live objects on their own rank, delivers a completion only where it belongs, and moves bytes only within the reach of its rank |
| CopySoundness.StepKeeps | src/copy.hpp:318-689 | every step of every interleaving keeps the ownership invariant |
| CopySoundness.InvSafe | src/copy.hpp:318-689 | the invariant implies safety |
| CopySoundness.InvFinished | src/copy.hpp:318-689 | at rest everything owed has been delivered once and every object is gone |
| CopyChecks.LoopbackOk | src/copy.hpp:351-400 | the loopback path, with the dual-kind bounce, passes the check |
| CopyChecks.PutAsGetOk | src/copy.hpp:408-467 | the native put turned into a get passes |
| CopyChecks.NativeOk | src/copy.hpp:468-509 | the native transfer passes: among others, the remote completion runs on the destination's rank |
| CopyChecks.RefGetOk | src/copy.hpp:511-588 | the reference get passes |
| CopyChecks.RefPutOk | src/copy.hpp:590-686 | the reference put passes outside the excepted case |
| CopyChecks.ThirdPartyOk | src/copy.hpp:161-229 | the third-party copy passes, with the copy nested at the target |
| CopyChecks.AsGetOk | src/copy.hpp:245-314 | the host-to-host get passes, shared-memory and remote |
| CopyTheorems.CopyIsSafe | src/copy.hpp:318-689 | in every run completions come at most once, on the rank they belong to (source and operation completion on the initiator, remote completion on the destination's rank), and only after source read and destination written; nothing dead is touched and every object lives on its own rank; bytes are moved only by a rank that can reach both ends; undischarged_n_ is up while bytes move on the paths that count; at rest each request was met once, each buffer and state freed once, undischarged_n_ is back |
| CopyTheorems.ToldWithData | src/copy.hpp:318-689 | the completion that first speaks of the destination finds all source bytes in it |
| CopyTheorems.AsGetIsSafe | src/copy.hpp:245-314 | the same safety and completeness for the host-to-host get |
| CopyTheorems.PrivateSourceAtOnce | src/copy.hpp:408-686 | in every run, a put from private memory has delivered source completion when the call returns, unless the network sends directly from that memory |
| CopyTheorems.SharedGetAtOnce | src/copy.hpp:252-273 | in every run, a get within shared memory has delivered source and operation completion when the call returns |
| CopyTheorems.RunsAreBounded | src/copy.hpp:318-689 | no run goes on for ever |
| CopyTheorems.ComesToRest | src/copy.hpp:318-689 | every run can be completed |
| CopyTheorems.EarlyDeleteFails | src/copy.hpp:597-685 | in every excepted case some run reports on a deleted completion state |
| CopyTheorems.SafeExactlyWhen | src/copy.hpp:596-685 | a copy is safe in all runs exactly when it is not a reference put from device memory with source but not operation completion |
| CopyEntry.EntriesAdmitted | src/copy.hpp:695-877 | each public entry point meets the assertions of the path it picks |
| CopyEntry.RouteEnds | src/copy.hpp:695-877 | which path each entry point picks, and that its copy is the caller's, between the two ends he named and with the completions he asked for: global pointers as they are, raw pointers private to the caller or in the shared segment that holds them |
| CopyEntry.RawPointersNeverExcepted | src/copy.hpp:695-826 | copies from or to raw host pointers are never the excepted case |
| CopyEntry.EveryEntryIsSafe | src/copy.hpp:695-877 | whatever of the three functions is called, on whatever valid pointers, all runs on the paths in this file are safe and complete, save for the excepted put between two global pointers |
| CopyEntry.EntrySafeExactlyWhen | src/copy.hpp:695-877 | a call is safe in all its runs exactly when it is not that put |
| Completions.Operation.constructor | src/completion.hpp:709-951 | building the state takes over one reference per promise action, one dependency per promise with values, one undischarged count per lpc |
| Completions.Operation.Return | src/completion.hpp:1500-1589 | the returner gives every future a promise of its own and every void promise its dependency, unless the action is eager, without values, and its event done; every other action holds what it held |
| Completions.IsDone | src/completion.hpp:479-507 | by bits: completing the operation implies remote and source completion, remote completion implies source completion, and nothing else |
| Completions.Operation.Fire | src/completion.hpp:740-951 | every action of the event, and no other, sees the values as they were given; finished in the call, with its hold given back, are buffered and blocking actions, actions with nothing left to do, eager futures and eager promises with values; queued are lpcs, discharged, and deferred futures and all other promises, with their hold |
| Completions.Operation.Cancel | src/completion.hpp:1381-1387 | cancelling gives back at once what the actions of the event hold |
| Completions.Operation.MakeDormant | src/completion.hpp:1370-1379 | every action of the event sleeps with the promise it holds, lpcs are discharged |
| Completions.Operation.Wake | src/completion.hpp:640-672 | waking queues every sleeping action of the event with what it holds, dropping gives that back at once |
| Completions.Operation.AllGivenBack | src/completion.hpp:640-672 | once all actions are finished every dependency, reference and undischarged count is back |
| Completions.Settle | src/completion.hpp:1321-1387 | one call on an event touches its actions only, and each is finished, queued or asleep, with the hold that firing, cancelling or sleeping leaves it |
| Completions.Lifecycle | src/completion.hpp:640-672 | for any actions, from construction through the returner, one call per event in any order, waking and progress: dependencies net to zero, each reference the actions brought is dropped once, undischarged lpcs are balanced, and exactly the actions of fired events see the values of their event; before progress runs, each action is settled as its event was called, so that eager futures are fulfilled and deferred ones not, and the counters hold just what unfinished actions hold |
| SegmentCache.PartitionPoint | src/ccs.hpp:140-147 | the binary search finds the boundary of any partitioned prefix |
| SegmentCache.SegCache.FindPtr | src/ccs.hpp:140-147 | an entry covering the pointer is found exactly when one is cached |
| SegmentCache.SegCache.SearchPtr | src/ccs.hpp:149-162 | a current cache is searched unchanged, a stale one is emptied and brought to the current epoch |
| SegmentCache.SegCache.SearchIdx | src/ccs.hpp:164-167 | the same search over indexed segments |
| SegmentCache.SegCache.SearchTkn | src/ccs.hpp:300-308 | an entry with the hash is found exactly when one is cached |
| SegmentCache.SegCache.Activate | src/ccs.cpp:924-968 | twin arrays stay sorted, each by its key, with the same segments; exactly one entry is added, or replaces the one at the eviction index, which then moves to the next slot; the segment is in the cache afterwards, and the other cache is as it was |
| SegmentCache.VictimFound | src/ccs.cpp:949-955 | the search by the victim's start finds the victim itself in the twin array |
| SegmentCache.EntryOf | src/ccs.cpp:938-967 | a segment in the token cache is in the pointer cache with its whole range |
| Sorting.SortPrefix | src/ccs.cpp:939-966 | the front of the array is sorted by the key and a permutation of what it was, the rest untouched |
| SegmentTable.Rebuild | src/ccs.cpp:538-557 | flags and indices are carried over by hash |
| SegmentTable.InheritsFrom | src/ccs.cpp:546-555 | a segment takes over every flag that any old segment with its hash had, and the index of the last of them, duplicates included |
| SegmentTable.RebuiltKeeps | src/ccs.cpp:538-557 | every known segment keeps its range and hash; a good one keeps its index and all flags, a bad one stays bad |
| SegmentTable.GoodBefore | src/ccs.cpp:406-415 | a segment that is good in the new map was good in the old one, with the only segment of its hash |
| Process.Process.TryInactive | src/ccs.cpp:894-916 | the scan finds the segment strictly around the pointer and activates it, so that a cache covers the pointer afterwards; a bad one is refused |
| Process.Process.SearchMap | src/ccs.hpp:169-185 | the map answers, or the rebuilt map if it did not know the pointer |
| Process.Process.Tokenize | src/ccs.hpp:238-278 | a pointer gets the token of the primary segment, with its offset, exactly when it is in [start, end) of that; otherwise, through index cache, pointer cache or map, a pointer strictly inside a good segment gets the token a linear scan gives it: by index if the segment has one, by hash if not, refused then under enforcement; anywhere else it gets what a cache that covers it says, and if none does what the scan says; caches of other threads still fit the map, and new entries are of the segment around the pointer |
| Process.Process.DetokenizeHash | src/ccs.hpp:310-351 | a hash token leads to the start of a segment with that hash, cached or not, and that segment is cached afterwards |
| Process.Process.Detokenize | src/ccs.hpp:364-372 | a token leads to its offset from the start of the primary segment, of the segment with its index, or of a segment with its hash |
| Tokens.EndpointsOnly | src/ccs.hpp:140-147 | a cache can answer where the map does not only for the two ends of a segment |
| Tokens.BadRefused | src/ccs.cpp:903-909 | a pointer in a bad segment is refused exactly when neither the index cache nor a usable pointer cache covers it |
| Tokens.ScanNames | src/ccs.hpp:259-275 | without a cache that covers the pointer the answer is that of the scan |
| CacheDependence.CachedThenDuplicated | src/ccs.cpp:406-415 | a cached segment is answered for after a duplicate made it bad, while a thread without a cache is refused |
| CacheDependence.DetokenizedThenTokenized | src/ccs.hpp:310-351 | a segment that a token was detokenized through is answered for, good or bad |
| CacheDependence.EndDependsOnCache | src/ccs.hpp:140-147 | the end of a segment is answered for by a thread that tokenized a pointer inside, and refused for a thread without a cache |
| Following.FollowsFits | src/ccs.hpp:149-162 | a cache that fits a map and an epoch fits every map and epoch that follows them |
| Following.RebuildFollows | src/ccs.cpp:538-557 | the rebuilt map follows the old one |
| Following.JudgeSegmentFollows | src/ccs.cpp:1039-1064 | after verify_segment all caches still fit, and the tables stay steady unless a numbered segment was forgotten |
| Following.JudgeAllFollows | src/ccs.cpp:1106-1171 | after verify_all all caches still fit and the tables stay steady |
| Threads.Step | src/ccs.hpp:238-278 | one operation of one thread keeps every cache of every thread fitting the map, changes no other thread's cache, and answers as its contract says |
| Threads.Run | src/ccs.hpp:238-278 | from the start of a process, with any number of threads that tokenize, detokenize, name, load and verify, up to the first collective call that fails for an indexed segment, does not vouch for all of them, or exceeds the limit: every tokenization of a pointer in the primary segment gives its offset, in another good segment answers as a linear scan, and any other as the caches of its thread, or else the scan, say; every token leads where its kind says; every judgement is the one on the tables as they were |
| Verification.ReduceAgrees | src/ccs.cpp:994-1000 | for any reduction tree the result is a hash exactly when all ranks contributed it |
| Verification.JudgeSegmentOk | src/ccs.cpp:1039-1064 | one verify_segment fails exactly when the segment is not loaded or the ranks did not agree, gives up exactly when it would number beyond the limit, and succeeds otherwise; it either changes no number or gives the next to the segment all ranks named |
| Verification.JudgeSegmentSays | src/ccs.cpp:1039-1064 | on any map: the answer, the flags of the segment named, its index, its slot and the epoch, and that no other segment changes |
| Verification.ConsistentExactlyWhen | src/ccs.cpp:1039-1064 | after one verify_segment the tables are those of some numbering exactly when the call succeeded or named a segment without an index |
| Verification.FlagListGood | src/ccs.cpp:1110-1121 | a good segment ends up verified exactly when the broadcast list vouches for its hash and flagged bad exactly when the list names it and does not; one not named keeps its flags |
| Verification.JudgeAllOk | src/ccs.cpp:1106-1171 | one verify_all numbers, in the order of their hashes, exactly the segments loaded everywhere and not numbered before, verifies exactly what every rank had and flags all else as bad, and ends the process exactly when the limit is exceeded |
| Verification.JudgeAllSays | src/ccs.cpp:1106-1171 | on any map, duplicates included: it never answers that a segment is missing, a good segment the list names is verified or bad as the list says, one it does not name is bad unless it was verified, and the epoch rises exactly when an index was given |
| Verification.IndexInTable | src/ccs.cpp:1052-1056 | the index given is inside the table exactly when the count was below the limit |
| Process.Process.NameSegment | src/ccs.cpp:1010-1031 | the hash contributed is that of the good segment strictly around the pointer in the rebuilt map, the empty hash exactly if there is no segment, and a bad one is refused |
| Process.Process.JudgeOne | src/ccs.cpp:1039-1064 | the code answers success exactly when the segment is loaded, the reduction is not empty and the limit is not exceeded, and does to flags, index, slot and epoch what `SegmentJudged` says |
| Process.Process.CheckList | src/ccs.cpp:1095-1102 | the checklist says which hashes are loaded |
| Process.Process.JudgeEvery | src/ccs.cpp:1106-1171 | the loops compute the judgement on all segments, the limit assertion included, with flags and epoch as `AllJudged` says |
| Agreement.ReducedByTree | src/ccs.cpp:1032-1038 | what the ranks agree on does not depend on the shape of the reduction |
| Agreement.JoinGrants | src/ccs.cpp:1032-1173 | what a call answers on a rank and which numbers it hands out depend only on what all ranks brought and on the numbers before: verify_segment fails unless all brought the same hash |
| Agreement.AllSucceedOrAllFail | src/ccs.cpp:1002-1173 | over any run, however far apart in time two ranks come to a call, they get the same answer: all succeed, all fail or all give up at the limit; verify_segment fails exactly when there is no hash that all ranks brought |
| Agreement.IndicesAgree | src/ccs.cpp:1002-1173 | over any run of collective calls, while maps grow and ranks run ahead of each other, and whatever failed calls name that has no index, an index names the same hash on every rank |
| Agreement.SameCallsSameNumbers | src/ccs.cpp:1002-1173 | ranks that completed the same calls have numbered the same segments |
| Agreement.NeverMisnamed | src/ccs.cpp:1002-1066 | a call for which all ranks name the same segment never fails on one that has an index |
| Misnaming.MisnamedCallsDisagree | src/ccs.cpp:1039-1064 | after any failed call on a segment with an index the program can go on, with calls that name one segment each, to an index with two meanings |
| Misnaming.ConcreteMisnaming | src/ccs.cpp:1039-1064 | an instance with one verified segment |
| Duplicates.DuplicateNumberedAgain | src/ccs.cpp:1137-1168 | a duplicate of a numbered segment gets an index beyond those agreed on |
| Duplicates.LoadedNames | src/ccs.cpp:538-557 | without such duplicates, what is verified or indexed after a load is the numbered segment of its hash |
| Duplicates.FoundToNumber | src/ccs.cpp:1137-1150 | without such duplicates, what verify_all finds to number are hashes without an index, each once, however many bad segments are loaded |
| Duplicates.NumberingKeptExactlyWhen | src/ccs.cpp:1106-1171 | after a load, the next verify_all leaves every index its meaning exactly when the load brought no second segment with the hash of a numbered one |
| Duplicates.TableKeptExactlyWhen | src/ccs.cpp:1106-1171 | after a load, the next verify_all keeps the tables those of some numbering exactly when the load brought no bad segment |
| EpochProtocol.StepKeeps | src/ccs.cpp:1039-1056 | every step of threads and verifier keeps the epoch invariant |
| EpochProtocol.CurrentCachesAreClean | src/ccs.hpp:149-162 | outside the lock a cache of the current epoch holds no indexed segment |
| EpochProtocol.NoStaleHash | src/ccs.hpp:149-185 | a tokenization begun after a segment was verified never hands out its hash |
| EpochRefinement.Look | src/ccs.hpp:149-162 | searching the pointer cache with the epoch loaded is the step Look of the protocol |
| EpochRefinement.MapStep | src/ccs.cpp:894-916 | the locked scan with its activation is the step Map, and its token is by hash exactly when the protocol's answer is |
| EpochRefinement.DetokenizeStep | src/ccs.hpp:310-332 | the locked search by hash with its activation is the step Detokenize |
| EpochRefinement.JudgeSegmentRefines | src/ccs.cpp:1039-1064 | verify_segment is the steps Raise and Index on a new segment, and changes neither epoch nor indices otherwise |
| EpochRefinement.JudgeAllRefines | src/ccs.cpp:1106-1171 | verify_all is the steps IndexMany and RaiseAfter |
| TokenWire.RoundTrip | src/global_fnptr.hpp:122-163 | each kind of token is read back as written, whatever follows it |
| TokenWire.StreamRoundTrip | src/global_fnptr.hpp:122-163 | a stream of tokens of mixed widths decodes to exactly those tokens |
| TokenWire.Fields | src/global_fnptr.hpp:116-120 | the masks recover kind, index and offset from a word |
| TokenWire.Layout | src/global_fnptr.hpp:116-141 | the words of each kind: an offset below 2^63; offset, index from bit 48 on and the top bit; offset and top bit, then the hash |
| TokenWire.Writer.Serialize | src/global_fnptr.hpp:122-141 | the writer appends the encoding |
| TokenWire.Reader.Deserialize | src/global_fnptr.hpp:143-163 | the reader stops right after the token it returns |
| EndToEnd.Relocates | src/ccs.hpp:238-372 | what a rank answers for a pointer into a segment, sent and detokenized, is the same offset into the other rank's copy, and nothing else |
| EndToEnd.RelocatesInRun | src/ccs.hpp:238-372 | the same on any two ranks of any run of collective calls, if the receiver has completed at least the calls of the sender |
| EndToEnd.RelocatesPrimary | src/ccs.hpp:132-138 | what a rank answers for a pointer in [start, end) of its primary segment leads to the same offset in the primary segment of the other rank, and nowhere else |
| Broadcast.Participant.Contribute | src/broadcast.hpp:83-89 | the last contribution fires once with the value and removes state and entry |
| Broadcast.Participant.OnMessage | src/broadcast.hpp:98-105 | a message may come before or after the local call |
| Broadcast.Participant.Call | src/broadcast.hpp:93-121 | the local call makes one contribution, at the root both |
| Broadcast.StepKeeps | src/broadcast.hpp:72-123 | every call and every delivery, of any broadcast in any order, keeps the state of all ranks as their history says |
| Broadcast.FiredOnce | src/broadcast.hpp:72-123 | a rank that called, with its message delivered, has fired exactly once with the root's value and erased its entry once |
| Broadcast.NeverTwice | src/broadcast.hpp:72-123 | at no time twice, or with another value |
| Fnv.RoundMixes | src/digest.hpp:77-94 | the limb code computes h := 0x13B*(h xor b) + 2^88*h modulo 2^128 below 0x80 and its sign-extended variant above, with limbs 1 to 3 masked |
| Fnv.RoundExact | src/digest.hpp:77-94 | the sums that go into limbs 1 to 3 stay below 2^64, so these limbs are exact and masked, and the whole is exact modulo 2^128 |
| Fnv.Fnv128.constructor | src/digest.hpp:73-75 | the initial value is that of FNV-1a with 128 bits |
| Fnv.Fnv128.BlockIn | src/digest.hpp:109-120 | a block is the recurrence over its bytes |
| Fnv.InPieces | src/digest.hpp:57-64 | hashing in pieces equals hashing whole |
| Fnv.IsFnv1aOnlyForZero | src/digest.hpp:77-94 | for all 256 bytes, the step is that of FNV-1a exactly for the zero byte |
| HeapIndex.HeapTable.AllocNative | src/device_fwd.hpp:66-87 | native indices only increase |
| HeapIndex.HeapTable.AllocRef | src/device_fwd.hpp:66-87 | below the limit the scan always finds an empty slot, and the first one is given; it is an index that is held already exactly when that slot is pending |
| HeapIndex.HeapTable.FreeIndex | src/device_fwd.hpp:88-95 | only reference indices are given back |
| HeapIndex.HeapTable.Register | src/device_fwd.hpp:97-105 | a heap entered in its slot is live, all other slots are unchanged |
| HeapIndex.Run | src/device_fwd.hpp:66-106 | for any sequence of allocations, registrations, removals and frees in any order the methods give the replies of the run that `Do` makes operation by operation |
| HeapIndex.Traced | src/device_fwd.hpp:66-106 | these replies, with the tables in between, are a trace, which the following are about |
| HeapIndex.HandedTwiceExactlyWhen | src/device_fwd.hpp:66-95 | over any run an index is handed out while it is held exactly when some allocation met a first empty slot that was pending, and exactly then the program holds some index twice |
| HeapIndex.CountIsExact | src/device_fwd.hpp:66-95 | as long as no allocation did, the reference count is that of the occupied slots and the pending indices |
| HeapIndex.NativesRise | src/device_fwd.hpp:37-95 | every index is in the range of its kind, and a native one is larger than every one given before it |
| HeapIndex.TraceOk | src/device_fwd.hpp:66-95 | at every point of a run counts and slots match what is held |
| HeapIndex.OccupiedExactly | src/device_fwd.hpp:66-95 | indices handed out once each are as many as the occupied slots and the pending ones |
| HeapIndex.OccupiedWithin | src/device_fwd.hpp:74-82 | occupied slots never outnumber the indices handed out, so the scan stops below the limit |
| HeapIndex.SecondAllocation | src/device_fwd.hpp:74-80 | a second allocation gives another index exactly when the heap of the first is in the table at that time |
| DeviceRuns.OpenOk | src/cuda.cpp:252-281 | opening a device is refused exactly when no slot of its kind is left; otherwise it gives the next native index, or the least empty one of the others, which is not held and gets the heap |
| DeviceRuns.CloseOk | src/cuda.cpp:326-327 | closing succeeds exactly for an index whose slot is occupied, and empties that slot only |
| DeviceRuns.AlwaysSettled | src/device_fwd.hpp:66-95 | over every run of opening and closing devices nothing is pending or held twice, and the reference count is that of the occupied slots |
| DeviceRuns.IndicesNeverCollide | src/device_fwd.hpp:66-95 | no device is given the index of one that is open, and its heap stays in its slot until it is closed |
| DeviceRuns.RunDevices | src/ze.cpp:564-634 | the methods give the replies of such a run |
| DeviceRuns.DevicesTraced | src/hip.cpp:293-314 | these replies, with the tables in between, are a trace of devices |

## Left out

- The system layers of the allocator: sbrk, mmap, more segments, `sys_alloc` beyond failing, trimming and releasing
  segments (neither has an effect on an external segment), locks, statistics, realloc, calloc and bulk operations.
- The memory contents of blocks, and bounds of the word size on addresses beyond the segment being below 2^64.
- Head words as single integers: a segment whose end is not a multiple of 8 would put stray bits into the flags of
  top (src/dl_malloc.c:5421 takes the difference as it is); the record form assumes such an end is not given.
- Mspace.Mspace.Free: freeing a block that is not live is a usage error the source answers with an abort; it is a
  precondition here.
- The atomicity of a lambda body in `copy`: the machine interleaves single actions, which is more than the code does.
- `upcxx::rget` inside a third-party copy beyond an asynchronous transfer; its source is not part of this model.
- In completions, remote procedure calls sent over the wire and the order in which a progress queue runs.
- Process.Process.Detokenize: an index beyond the table of starts makes the source read outside of it; the model answers as
  for a slot that was never filled.
- Process.Process.JudgeOne: when the limit is exceeded the process ends; the model reports it and leaves the tables alone.
- Process.Process.JudgeEvery: the 16-bit width of the segment count, and the check of the primary segment that debug
  builds make; segments with equal hashes come in one order, where std::sort leaves it open.
- Agreement.IndicesAgree: every rank joins all calls, and no rank loads a bad segment; what a load with bad segments does
  is said of the next verify_all only.
- CopyEntry.EveryEntryIsSafe: the host-to-host puts that two entry points hand to `upcxx::rput`, whose source is not part
  of this model.
- Threads.Run: each operation is one step; how threads interleave inside one is the subject of `EpochProtocol`, whose
  steps are matched with the code for maps without bad segments.
- HeapIndex.Run: beyond the limit of open devices the process ends; the model refuses and goes on.
- EpochProtocol.NoStaleHash: the relaxed load of the epoch is taken to return the current value.
- TokenWire.RoundTrip: the byte order within a word and the padding behind a hash are not modelled.
- ELF and Mach-O parsing, debug output, symbol lookup, environment handling, and everything else that only reads or prints.
- Digest mixing of collective identifiers: broadcast identifiers are taken as distinct.
