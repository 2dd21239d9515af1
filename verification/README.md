# A verified model of the memory pool and the reactor

The repository is a C++ network library with its own memory pool. This project models the two parts
that carry its hardest invariants and proves them in Dafny.

**The memory pool (`src/memory`).** A page heap splits and coalesces spans; a three-level radix tree
maps page numbers to spans; a central cache carves spans into objects and counts what is out;
per-thread free lists grow by slow start; two levels of locks are released and retaken in the middle
of operations.

- `SizeClass` – rounding and class arithmetic on 64-bit words.
- `PageHeap`, `PageHeapInvariant`, `PageHeapRuns`, `PageHeapExact`, `PageHeapStale` – the page heap as a
  value, its invariant, every run of it, exactly what each operation takes and leaves, and what the text
  of the exact-bucket path gets wrong.
- `PageCache`, `PageMap`, `ObjectPool`, `SpanList`, `Chains` – the objects the source updates in place
  (heap, radix tree, record pool, circular list, pointer chains), each proved against the value it
  stands for.
- `Allocator` – the three caches and both lock levels as a transition system over any number of
  threads; `AllocatorInvariant` states its invariant, `AllocatorFrames` and the `Allocator…Steps`
  modules preserve it step by step, `AllocatorRuns` carries it over all runs, `AllocatorSafety`,
  `AllocatorLinks`, `AllocatorRequests`, `AllocatorEffects`, `AllocatorSlowStart` and `AllocatorProgress`
  draw the conclusions: what never happens, and what each step takes, gives and leaves. `Carving` has the geometry of carved objects.

**The reactor (`src/net`, `src/timer`).** `EventLoop` is the pending-functor and eventfd protocol with
any number of enqueuing threads; `Buffer` the byte queue; `ConnectionModel` the output and half-close
protocol over all event sequences, `ConnectionHistory` accounts for every byte by the events alone, and
`TcpConnection` is the object that computes it; `Poller` the
channel registration against the kernel's interest set; `TimerQueue` the timer set and its armed
deadline.

## How the model reads the code

- A failed assertion, a read through a null or dead pointer, and an unlink of what is not linked are
  `Fault` (or the thread state `Crashed`); that they do not happen is proved.
- `sbrk` is an oracle: the page of a region that is new. Kernel calls (`write`, `readv`, `epoll_ctl`,
  `eventfd`, `timerfd`) are parameters or ghost state with the results the kernel may give.
- One step of the allocator is one lock acquisition, or the work between two lock operations together
  with the release that ends it. Work on data that only the stepping thread can reach is one step.
- A place where the text departs from its evident intent is a parameter: a `Variant` has one switch for
  the tagging loop and one for the carving guard, a `Guard` is for connections, a `Unit` for the clock.
  Each departure comes with the exact condition under which the text meets the property:
  - `src/memory/PageCache.cc:37` tags the first page on every round where page + i is meant (lines 35
    and 78). Boundary tags stay right all the same (`PageHeapRuns.EndsMap`), but for the last page of a
    128-page span that is out: it is tagged exactly when the span was taken from its bucket
    (`PageHeapRuns.WholeTaggedExactly`). Address lookup is right over all runs exactly for spans of one or two
    pages (`PageHeapStale.WrittenTagsExactly`). Runs of the allocator with the tagging loop as written
    are confined to classes with such spans; with it repaired they take every class.
  - `src/memory/CentralCache.cc:43` admits an object that starts inside the span and ends past it:
    objects fit exactly when their size divides the span (`Carving.WrittenCarveFits`), and in every
    reachable state the live blocks on either side of a span's end are disjoint exactly then
    (`AllocatorSafety.BoundaryBlocksExactly`). A user who fills a block that overruns its span overwrites
    the link of a free object exactly when one starts in the overrun
    (`AllocatorLinks.UserMissesLinkExactly`, `AllocatorLinks.BoundaryLinkExactly`); free lists are
    sequences here, which that cannot touch, so what is proved of runs with the guard as written assumes
    that users leave the overrun alone. With the guard as intended no user's block reaches any link
    (`AllocatorLinks.UserMissesLinks`).
  - `src/memory/common.hpp:87` asserts n >= length where the walk needs 1 <= n <= length
    (`Chains.PopRangeExactly`, `AllocatorSafety.BatchCutInBounds`); the assertion is read as n <= length
    in every variant.
  - `src/net/TcpConnection.cc:140` tests `isWriting()` where its comment means the negation
    (`ConnectionModel.WrittenSendExactly`, `ConnectionModel.WrittenNeverRegisters`); over every run the
    half-close then finds all bytes written exactly when no send has left a remainder
    (`ConnectionModel.WrittenHalfCloseExactly`).
  - `src/base/Timestamp.cc:14` reads seconds while deadlines add microseconds. A timer is then due when
    its descriptor fires exactly when its delay is over already, or is one microsecond and armed in the
    last 100 microseconds of a second (`TimerQueue.FiresWhenDueExactly`); otherwise the expiry round
    takes nothing and leaves the queue unarmed (`TimerQueue.TimerQueue.HandleRead`).
- Three more properties fail of the code as it stands and are stated with the exact condition under
  which they hold: `queueInLoop` by the loop thread outside a callback writes no wakeup
  (`EventLoop.EarlyQueueExactly`); a `quit` ends the loop exactly when it is made
  after `loop` began (`EventLoop.QuitHonouredExactly`); a send from another thread that runs after the half-close is
  written after it (`ConnectionModel.LateSendExactly`).
- `src/base/CurrentThread.cc:9` returns the process id as thread id; threads here have distinct ids.

## Model

| member | source | states |
|---|---|---|
| SizeClass.MaskFormExact | src/memory/common.hpp:138-141 | for every 64-bit count and power-of-two alignment, the mask form is the least multiple not below the count if and only if that multiple fits in the word; otherwise it is 0 |
| SizeClass.RoundUpIsClassSize | src/memory/common.hpp:146-209 | for 1 to 256 KiB: index below 208, the rounded size is the size of that class, not below the request, by less than one alignment step, and in the same class |
| SizeClass.IndexInBounds | src/memory/common.hpp:175-209 | the index is inside the table if and only if the size is at least 1 |
| SizeClass.ClassTable | src/memory/common.hpp:180-209 | every one of the 208 classes is the class of its own size |
| SizeClass.SameClass | src/memory/common.hpp:146-209 | two sizes share a list if and only if they round to the same size |
| SizeClass.RoundUpExactly | src/memory/common.hpp:146-173 | the rounded size is the least multiple, not below the size, of 8, 16, 128, 1024 or 8192 by its range |
| SizeClass.WasteBound | src/memory/common.hpp:131-173 | above 128 bytes less than one ninth of the rounded size is wasted |
| SizeClass.NumMovePageBounds | src/memory/common.hpp:212-245 | a span for a class has 1 to 64 pages and room for at least one object |
| SizeClass.NumMoveSizeExactly | src/memory/common.hpp:212-227 | the batch ceiling is the most objects, from 2 to 512, that 256 KiB hold, and 2 when not even two fit |
| SizeClass.NumMovePageExactly | src/memory/common.hpp:235-245 | a span has the whole pages that one such batch fills, and at least one |
| PageHeapInvariant.NewSpanOk | src/memory/PageCache.cc:26-99 | by whichever path, `new_Span` of 1 to 128 pages succeeds and keeps the partition of the pages, the buckets, the boundary tags and the record pool; the span is new to the outside, has n pages, and every other span that is out keeps its record and its tags |
| PageHeapInvariant.NeighbourIsLive | src/memory/PageCache.cc:137-170 | a non-null lookup beside a span returns a live adjacent span, never a dead or reused record |
| PageHeapInvariant.MergeLeftOk | src/memory/PageCache.cc:134-163 | the left loop ends, touches no dead record, conserves pages, and leaves a left neighbour that is unmapped, in use, or makes 129 pages or more |
| PageHeapInvariant.MergeRightOk | src/memory/PageCache.cc:166-195 | the same on the right, and the left stays finished |
| PageHeapInvariant.ReleaseOk | src/memory/PageCache.cc:120-204 | a release conserves the page set, keeps the invariant and every other span that is out, and ends with a free span each of whose live neighbours, by pages and not by tags, is in use or makes 129 pages or more with it |
| PageHeapExact.NewSpanExactly | src/memory/PageCache.cc:26-99 | a span of exactly n pages is taken when there is one, else the front of the smallest larger bucket is cut and its rest moves to the front of its bucket, and the system is asked for 128 pages only when no bucket fits; which pages, records, buckets and tags change, and no others |
| PageHeapExact.ReleaseExactly | src/memory/PageCache.cc:120-204 | the merged span is at the front of its bucket with both ends tagged, the free spans it swallowed left theirs, and nothing else changes |
| PageHeapExact.RunsKeepRecords | src/memory/PageCache.cc:6-204 | over every run each record is that of a live span or waits in the pool: none is lost |
| PageHeapExact.PoolIsLifo | src/memory/ObjectPool.hpp:15-49 | the record deleted last is handed out first; with none deleted, the next new one |
| PageHeapRuns.RunsKeepHeap | src/memory/PageCache.cc:6-204 | in every heap reached by requests of 1 to 128 pages and returns, the pages are partitioned by live spans, bucket i holds spare spans of i pages, the ends of live spans are tagged, spans that are out are marked; with requests safe for the variant, every page of every span that is out maps to it |
| PageHeapRuns.EndsMap | src/memory/PageCache.cc:29-79 | in such a heap the first and last page of every live span map to it, except, as written, the last page of a 128-page span that is out |
| PageHeapRuns.WholeTaggedExactly | src/memory/PageCache.cc:29-40 | as written, the last page of a 128-page span obtained maps to it if and only if the span was in its bucket before, not fresh from the system |
| PageHeapRuns.NoFault | src/memory/PageCache.cc:6-204 | no legal operation after any run touches a dead record |
| PageHeapStale.WrittenTagsExactly | src/memory/PageCache.cc:29-40 | as written, over all runs, every page of every span of n pages is tagged with it if and only if n is at most 2, for every n from 1 to 128 |
| PageCache.PageCache.ObtainSpan | src/memory/PageCache.cc:6-100 | the method on buckets, records and radix tree computes `new_Span` on the heap value and keeps the heap well formed |
| PageCache.PageCache.NewSpan | src/memory/PageCache.cc:26-99 | the exact-bucket, split and refill-and-recurse paths compute the heap function; the recursion is at most one deep; every `set` finds its leaf |
| PageCache.PageCache.FindBucket | src/memory/PageCache.cc:29-45 | the scan finds the first non-empty bucket from n on |
| PageCache.PageCache.TagExact | src/memory/PageCache.cc:31-38 | the tagging loop sets every page as intended, and only the first as written |
| PageCache.PageCache.SplitFront | src/memory/PageCache.cc:47-82 | the in-place split computes the split of the heap value |
| PageCache.PageCache.Grow | src/memory/PageCache.cc:86-94 | 128 pages become one free span in the last bucket, and each has a leaf in the tree |
| PageCache.PageCache.MergeLeftLoop | src/memory/PageCache.cc:134-163 | the loop computes the left merge, reading only live records, with page 0 wrapping to the last word |
| PageCache.PageCache.MergeRightLoop | src/memory/PageCache.cc:166-195 | the loop computes the right merge, reading only live records |
| PageCache.PageCache.Release | src/memory/PageCache.cc:120-204 | the method computes the release of the heap value, keeps the heap well formed, and no live neighbour of the result is free with fewer than 129 pages together |
| PageCache.PageCache.MapObjectToSpan | src/memory/PageCache.cc:103-116 | finds the span of any address in a fully tagged span; fails exactly on an untagged page |
| PageMap.IndicesInBounds | src/memory/PageMap.hpp:19-72 | for every BITS >= 2 the first index is in bounds if and only if the key is below 2^BITS; the other two always are, and fit the arrays |
| PageMap.LevelsSplit | src/memory/PageMap.hpp:19-26 | the bits split over three levels, the interior ones a third each rounded up |
| PageMap.IndicesInjective | src/memory/PageMap.hpp:62-72 | equal indices mean equal keys; equal first and second index mean the same leaf, and conversely |
| PageMap.RangeCovered | src/memory/PageMap.hpp:103-158 | a request for n > 0 keys reaches all of them if and only if start + n does not exceed the word |
| PageMap.PageMap.constructor | src/memory/PageMap.hpp:50-59 | the empty tree is the empty map |
| PageMap.PageMap.Set | src/memory/PageMap.hpp:62-82 | changes the map at that key only, and no key's settability |
| PageMap.PageMap.Get | src/memory/PageMap.hpp:84-99 | the tree's lookup is the map's, null outside the key space and where a node, a leaf or an entry is missing |
| PageMap.PageMap.Ensure | src/memory/PageMap.hpp:103-158 | changes no lookup, makes settable exactly the keys of the leaves from the first to the last key, terminates, and returns whether the last key is in range |
| ObjectPool.ObjectPool.New | src/memory/ObjectPool.hpp:15-41 | returns the record last deleted, else the next of the chunk, and takes a chunk of 128 KiB only when there is no room for one more; records never overlap each other or the unused rest of a chunk |
| ObjectPool.ObjectPool.Delete | src/memory/ObjectPool.hpp:44-49 | the record goes to the front of the free chain; nothing else in memory changes |
| SpanList.InsertRing | src/memory/common.hpp:303-314 | the four link assignments put one record between two neighbours of the ring |
| SpanList.EraseRing | src/memory/common.hpp:316-331 | the two link assignments take one record out of the ring |
| SpanList.SpanList.PushFront | src/memory/common.hpp:291-314 | on links as on sequences: the record goes to the front |
| SpanList.SpanList.Erase | src/memory/common.hpp:316-331 | on links as on sequences: the record is removed |
| SpanList.SpanList.PopFront | src/memory/common.hpp:296-301 | returns and removes the first record |
| SpanList.SpanList.Empty | src/memory/common.hpp:333-336 | the head points at itself if and only if nothing is linked |
| Chains.PopRangeExactly | src/memory/common.hpp:85-99 | cutting n objects follows existing links if and only if 1 <= n <= length, the loop bound wrapping for n = 0; with the assertion as written only n equal to the length is left |
| Chains.LinkedFreeList.Push | src/memory/common.hpp:70-75 | prepends one object; size equals chain length |
| Chains.LinkedFreeList.Pop | src/memory/common.hpp:102-108 | removes the first object; size equals chain length |
| Chains.LinkedFreeList.PushRange | src/memory/common.hpp:77-82 | prepends a chain of n objects; size equals chain length |
| Chains.LinkedFreeList.PopRange | src/memory/common.hpp:85-99 | cuts the first n objects off as a null-terminated chain and keeps the rest |
| Chains.FetchRange | src/memory/CentralCache.cc:68-84 | cuts off the smaller of the batch and what the span has, both parts well-formed chains |
| Chains.CarveLoop | src/memory/CentralCache.cc:36-49 | the carving loop chains exactly the objects the carved sequence lists, in order, and writes nowhere else |
| Carving.CarvedStarts | src/memory/CentralCache.cc:36-49 | every object starts inside the span; as intended it ends inside, as written it overruns by less than one size |
| Carving.CarvedDisjoint | src/memory/CentralCache.cc:36-49 | objects of one span do not overlap |
| Carving.WrittenCarveFits | src/memory/CentralCache.cc:43-48 | as written all objects end inside the span if and only if the size divides the span |
| Carving.WrittenCarveOverruns | src/memory/CentralCache.cc:43-48 | a 24-byte class in its one page is an instance that overruns |
| AllocatorRuns.StepKeepsInv | src/memory/ThreadCache.cc:7-81 | every step of every thread, of allocation, fetch, carving, release and return, keeps the invariant |
| AllocatorRuns.ReachableInv | src/memory/ConcurrentAlloc.hpp:29-60 | every state of every run by any number of threads satisfies the invariant |
| AllocatorSafety.NeverCrashes | src/memory/ConcurrentAlloc.hpp:29-60 | no assertion fails, the one at the batch cut read repaired, no null or dead record is read and nothing unlinked is unlinked, in any interleaving; with carving as written, as long as users leave the overrun alone |
| AllocatorSafety.SpanInOnePlace | src/memory/CentralCache.cc:24-52 | each live span is in a page bucket, on one central list or carried by one thread, in only one of these, and only once there |
| AllocatorSafety.UseFlagExact | src/memory/CentralCache.cc:117-136 | whenever the page lock is free, `_isUse` is false exactly for spans in page buckets |
| AllocatorSafety.AddressFindsSpan | src/memory/PageCache.cc:103-116 | any address in any page of a span that is out looks that span up, in every reachable state |
| AllocatorSafety.OneHolder | src/memory/CentralCache.cc:68-115 | an object has one holder: a user, one thread list, one thread's hands, or its span |
| AllocatorSafety.NeverHandedOutTwice | src/memory/ThreadCache.cc:7-71 | an address handed out is not live; afterwards it is; from the cached list its block is as long as asked |
| AllocatorRequests.DeliveredAsAsked | src/memory/ThreadCache.cc:43-71 | on the fetch path too: in every run the block delivered was not live and is as long as the request that the thread has been serving since |
| AllocatorSafety.LiveBlockInside | src/memory/CentralCache.cc:36-49 | a live block of any class starts inside a span that is out, and ends inside it under the exact carving condition |
| AllocatorSafety.LiveBlocksDisjoint | src/memory/ConcurrentAlloc.hpp:29-60 | two live blocks never overlap, with the carving guard as intended always, as written when their sizes divide their spans, in every class |
| AllocatorSafety.BoundaryBlocksExactly | src/memory/CentralCache.cc:36-49 | as written, the live block that reaches the end of its span and a live block that starts there are disjoint if and only if the length divides the span |
| AllocatorLinks.UserMissesLinkExactly | src/memory/common.hpp:47-59 | in every reachable state a user's whole block misses the first word of any other object, whoever holds that, if and only if the object does not start in the part of the block past the end of its span |
| AllocatorLinks.UserMissesLinks | src/memory/common.hpp:47-59 | so a user's block never reaches another object's link, as intended always, as written when its length divides its span |
| AllocatorLinks.BoundaryLinkExactly | src/memory/CentralCache.cc:36-49 | as written, the block that reaches the end of its span misses the link of an object that starts there if and only if its length divides the span |
| AllocatorSafety.UseCountExact | src/memory/CentralCache.cc:68-139 | `_usecount` is the number of carved objects outside the span, with the span's list it adds up to all carved, and it is positive whenever the bucket lock is free |
| AllocatorSafety.RetiredWithLastObject | src/memory/CentralCache.cc:104-139 | a span starts back to the page heap if and only if the object returned is the only one out |
| AllocatorSafety.FreeListsBounded | src/memory/ThreadCache.cc:25-81 | size equals chain length, at most maxSize, and 1 <= maxSize <= num_move_size + 1 <= 513 |
| AllocatorSlowStart.LimitFollowsFetches | src/memory/ThreadCache.cc:43-51 | over every run: after k fetches of a class a thread's limit is the lesser of 1 + k and the ceiling of the class plus 1 |
| AllocatorEffects.FetchExactly | src/memory/ThreadCache.cc:43-56 | with the own list empty the batch asked for is the lesser of limit and ceiling, and the limit grows by one exactly when it is not above the ceiling |
| AllocatorEffects.PopExactly | src/memory/ThreadCache.cc:14-17 | with the own list not empty its first object is handed out and nothing else moves |
| AllocatorEffects.ScanExactly | src/memory/CentralCache.cc:8-24 | the bucket walk stays with the first listed span that has an object, and goes to the page heap if and only if none has |
| AllocatorEffects.NewExactly | src/memory/CentralCache.cc:27-29 | the page heap is asked for exactly the pages of the class |
| AllocatorEffects.MarkExactly | src/memory/CentralCache.cc:30-32 | the span is marked in use and sized under the page lock, which is then given up |
| AllocatorEffects.PublishExactly | src/memory/CentralCache.cc:50-52 | the new span goes to the front of its list |
| AllocatorEffects.TakeExactly | src/memory/CentralCache.cc:68-89 | the first objects of the span leave it, as many as asked for or as there are, and the use count grows by that |
| AllocatorEffects.DeliverExactly | src/memory/ThreadCache.cc:58-70 | the first object goes to the caller, the others in order to the front of the thread's list |
| AllocatorEffects.FreeExactly | src/memory/ConcurrentAlloc.hpp:42-46 | a freed block leaves the live set and is looked up |
| AllocatorEffects.LookupExactly | src/memory/PageCache.cc:103-116 | the lookup finds the live span whose pages the address is in |
| AllocatorEffects.DeallocExactly | src/memory/ThreadCache.cc:25-41 | the object goes to the front of the list of its class; when, and only when, the list then exceeds its limit its first limit objects leave in order |
| AllocatorEffects.ReturnNextExactly | src/memory/CentralCache.cc:104-141 | a batch ends exactly when nothing of it is left |
| AllocatorEffects.ReturnGetExactly | src/memory/CentralCache.cc:106-109 | each object of a batch is looked up in turn, to the span whose pages it is in |
| AllocatorEffects.PutExactly | src/memory/CentralCache.cc:112-127 | the object goes to the front of its span; with the last one the span leaves its list, empty |
| AllocatorEffects.GiveExactly | src/memory/CentralCache.cc:133-138 | the emptied span goes through the page heap's release and the batch goes on |
| AllocatorSafety.BatchCutInBounds | src/memory/ThreadCache.cc:74-81 | every batch cut is of maxSize objects and the list has them; the assertion as written fails at every such call |
| AllocatorProgress.WaitingClimbs | src/memory/CentralCache.cc:24-50 | a thread waits only for a holder of a higher lock level |
| AllocatorProgress.LockDiscipline | src/memory/CentralCache.cc:101-141 | the holder of the page lock waits for no lock, the holder of a bucket lock for no bucket lock, and nobody holds two bucket locks |
| AllocatorProgress.NoWaitCycle | src/memory/CentralCache.cc:101-141 | no chain of waits is longer than three threads or closes |
| AllocatorProgress.NoDeadlock | src/memory/CentralCache.cc:24-50 | while a call is unfinished, some unfinished call can take a step |
| EventLoop.NoLostWakeup | src/net/EventLoop.cc:118-142 | waiting with functors pending, or with quit set from another thread, the counter is positive or a wakeup is owed, unless the loop thread queued outside a callback |
| EventLoop.NoLostWakeupOverRuns | src/net/EventLoop.cc:118-142 | the same over runs by their actions: no functor waits unawaited unless the loop thread queued outside a callback since the last swap |
| EventLoop.FifoOnce | src/net/EventLoop.cc:167-186 | executed, swapped-out and pending functors concatenate to everything queued: exactly once, in order |
| EventLoop.FifoOfActions | src/net/EventLoop.cc:118-186 | over every run, what the actions queued, in order, is what has run, what is swapped out and what is pending |
| EventLoop.ReadableExactly | src/net/EventLoop.cc:136-151 | after a read, in every interleaving, a wait finds the descriptor readable if and only if it has been written since |
| EventLoop.ReadBeforeServing | src/net/EventLoop.cc:69-83 | a wait that found the descriptor readable is followed by the read before any queued functor runs |
| EventLoop.WaitDrains | src/net/EventLoop.cc:69-83 | from any wait the loop thread alone can run everything queued so far |
| EventLoop.WaitServesAll | src/net/EventLoop.cc:69-83 | in every interleaving, once the loop is back from a wait, everything queued at that wait has run |
| EventLoop.EarlyQueueExactly | src/net/EventLoop.cc:118-132 | in every interleaving from before the loop to its first wait, the wait has functors pending and no wakeup under way if and only if none was under way to begin with, no other thread called in, and something was or has been queued |
| EventLoop.EarlyQueueStuck | src/net/EventLoop.cc:118-132 | an instance: a functor queued before the loop is left waiting |
| EventLoop.QuitHonouredExactly | src/net/EventLoop.cc:63-104 | in every interleaving, each time the loop tests its flag it ends if and only if a quit was made since that call of `loop` began, and otherwise goes to wait |
| EventLoop.QuitBeforeStartForgotten | src/net/EventLoop.cc:63-104 | without a quit since `loop` began it never ends, whatever was called before |
| Buffer.CopyDown | src/net/Buffer.h:138-141 | the forward overlapping copy to a lower address preserves the bytes |
| Buffer.Buffer.Retrieve | src/net/Buffer.h:55-68 | drops the first n readable bytes, all of them and back to index 8 when n is not smaller |
| Buffer.Buffer.RetrieveAsString | src/net/Buffer.h:76-82 | returns the bytes it removes; asked for more, the contents followed by what lies behind them; a fault exactly when the length reaches past the array |
| Buffer.Buffer.MakeSpace | src/net/Buffer.h:127-143 | keeps the contents and leaves enough room; the array is kept if and only if room in front and behind suffices, and then the reader index was above 8; else it is as long as needed |
| Buffer.Buffer.EnsureWritableBytes | src/net/Buffer.h:85-90 | nothing moves while there is room behind |
| Buffer.Buffer.Append | src/net/Buffer.h:85-101 | contents and everything ever put in grow by exactly the data; put in = taken out + contents |
| Buffer.Buffer.ReadFd | src/net/Buffer.cc:11-41 | the scatter read appends exactly what the kernel delivered over both parts, nothing on error |
| ConnectionModel.BytesConserved | src/net/TcpConnection.cc:93-145 | over any sends, write events, partial writes and errors: bytes accepted by the kernel followed by the output buffer are the messages not dropped whole, in order |
| ConnectionHistory.WrittenAndWaiting | src/net/TcpConnection.cc:93-145 | over every run, by the events alone: what is written is the first part of what callers handed over, as long as the kernel took, and what waits is the rest |
| ConnectionModel.RunKeepsInv | src/net/TcpConnection.cc:131-144 | until disconnection bytes wait if and only if the channel asks for writing; a connected channel is with the poller, reads until disconnected, and has at most one half-close queued, over all event sequences |
| ConnectionModel.HalfCloseAfterAllBytes | src/net/TcpConnection.cc:168-180 | a half-close before disconnection is issued only with every accepted byte written |
| ConnectionHistory.HalfCloseFindsAll | src/net/TcpConnection.cc:168-180 | the half-close before disconnection finds everything handed over, by the events, written |
| ConnectionModel.ShutdownNotForgotten | src/net/TcpConnection.cc:215-229 | once the buffer is empty and the queued call has run, an asked-for shutdown has been issued |
| ConnectionModel.NothingAfterHalfClose | src/net/TcpConnection.cc:168-180 | with in-loop calls no byte is written after the half-close |
| ConnectionModel.LateSendExactly | src/net/TcpConnection.cc:72-84 | a queued send from another thread run after the half-close leaves the stream alone over every continuation if and only if the connection is disconnected, the peer is gone, or the message is empty |
| ConnectionModel.WrittenNeverRegisters | src/net/TcpConnection.cc:139-143 | as written the channel is never registered for writing, and what once waits never leaves |
| ConnectionModel.WrittenSendExactly | src/net/TcpConnection.cc:131-144 | as written a send keeps buffer and registration in step if and only if it buffers nothing |
| ConnectionModel.WrittenHalfCloseExactly | src/net/TcpConnection.cc:139-180 | as written, over every run, the queued half-close is issued at once and finds every accepted byte written if and only if no send of the run left a remainder |
| ConnectionHistory.WrittenHalfCloseFindsAll | src/net/TcpConnection.cc:139-180 | the same by the events alone: all handed over is written exactly when the kernel took as much |
| ConnectionModel.WrittenHalfCloseLosesBytes | src/net/TcpConnection.cc:139-180 | an instance: any non-empty message refused for the moment still waits at the half-close |
| TcpConnection.TcpConnection.SendInLoop | src/net/TcpConnection.cc:93-145 | the method over the buffer object computes the send of the connection value, conserves bytes and keeps registration in step |
| TcpConnection.TcpConnection.Send | src/net/TcpConnection.cc:54-70 | sends only when connected |
| TcpConnection.TcpConnection.HandleWrite | src/net/TcpConnection.cc:210-239 | writes from the buffer, unregisters when it is empty, then issues a pending half-close; conserves bytes and keeps registration in step |
| TcpConnection.TcpConnection.Shutdown | src/net/TcpConnection.cc:168-173 | moves a connected connection to disconnecting and queues the half-close, which the object invariant then keeps due |
| TcpConnection.TcpConnection.ShutdownInLoop | src/net/TcpConnection.cc:175-180 | half-closes unless the channel is registered for writing |
| TcpConnection.TcpConnection.RunShutdown | src/net/TcpConnection.cc:168-180 | the queued call half-closes or leaves it to the last write; keeps the object invariant |
| TcpConnection.TcpConnection.HandleClose | src/net/TcpConnection.cc:241-253 | disconnects and drops all interest |
| TcpConnection.TcpConnection.ConnectEstablished | src/net/TcpConnection.cc:183-196 | connects and registers for reading |
| TcpConnection.TcpConnection.ConnectDestroyed | src/net/TcpConnection.cc:199-208 | disconnects a connected connection and takes the channel from the poller in every case |
| Poller.EpollPoller.UpdateChannel | src/net/poller/EpollPoller.cc:66-95 | for channels with distinct descriptors: afterwards the index is kAdded exactly when the kernel has the descriptor, with the channel's mask; the channel map has it exactly when the index is not kNew; no ADD, MOD or DEL has failed |
| Poller.EpollPoller.RemoveChannel | src/net/poller/EpollPoller.cc:98-111 | takes the descriptor out of map and kernel set; same invariant |
| Poller.EpollPoller.Update | src/net/poller/EpollPoller.cc:124-142 | the kernel set after each operation, and when the kernel refuses it |
| Poller.EpollPoller.EnableReading | src/net/Channel.h:42 | sets the read bits, keeps the write bit, registers; same invariant |
| Poller.EpollPoller.DisableReading | src/net/Channel.h:43 | clears the read bits, keeps the write bit; same invariant |
| Poller.EpollPoller.EnableWriting | src/net/Channel.h:44 | sets the write bit, keeps the read bits, registers; same invariant |
| Poller.EpollPoller.DisableWriting | src/net/Channel.h:45 | clears the write bit, keeps the read bits; same invariant |
| Poller.EpollPoller.DisableAll | src/net/Channel.h:46 | clears the mask, which unregisters a registered channel and registers any other with an empty mask; same invariant |
| TimerQueue.DueIsExact | src/timer/TimerQueue.cc:100-106 | the sentinel with the largest address splits the set exactly between due at or before now and later |
| TimerQueue.SetInsertIs | src/timer/TimerQueue.cc:153-165 | insertion keeps the order and adds exactly the entry |
| TimerQueue.TimerQueue.Insert | src/timer/TimerQueue.cc:153-166 | keeps order and keys, and reports whether the earliest deadline changed |
| TimerQueue.TimerQueue.AddTimerInLoop | src/timer/TimerQueue.cc:55-63 | an armed queue stays armed for its minimum |
| TimerQueue.TimerQueue.ResetTimerfd | src/timer/TimerQueue.cc:65-86 | arms for the expiration, but no sooner than 100 microseconds from now |
| TimerQueue.FiresWhenDueExactly | src/base/Timestamp.h:48-54 | when the descriptor fires its timer is due, with one unit always; with the clock in seconds if and only if the delay is over already, or is 1 and armed in the last 100 microseconds of a second |
| TimerQueue.FireTimeIs | src/timer/TimerQueue.cc:65-86 | the descriptor fires after the time left, or 100 microseconds if that is less |
| TimerQueue.TimerQueue.GetExpired | src/timer/TimerQueue.cc:100-114 | removes exactly the entries due at or before now |
| TimerQueue.TimerQueue.Reset | src/timer/TimerQueue.cc:133-151 | each repeating timer starts over exactly one interval from a clock reading taken then, keys equal to expirations, each other is deleted, timers not expired are untouched, and the queue is armed for its minimum when anything had expired |
| TimerQueue.TimerQueue.HandleRead | src/timer/TimerQueue.cc:116-131 | expires exactly what is due, calls exactly the callbacks of those timers, in order and whatever timers they add, and restarts or deletes each; afterwards the queue is armed for its minimum if and only if something was due, the descriptor had not fired, or nothing waited; with one unit always when it was readable to begin with; with the clock in seconds, handled as it fires, nothing expires and the queue is unarmed exactly when the delay is not on time |

## Left out

- Requests above 256 KiB and `new_Span` of 129 pages or more: `round_up` asserts false there and the tree is written without a preceding `Ensure`.
- Size 0: its index wraps around (`SizeClass.IndexInBounds` states it); the allocator model takes 1 to 256 KiB.
- PageHeapInvariant.NewSpanOk: tags at both ends are not promised for 128-page spans that are out; `PageHeapRuns.WholeTaggedExactly` says exactly when the last one is there.
- AllocatorSafety.NeverCrashes: with the carving guard as written, a user who writes past the end of a span destroys the link of the object that starts there, and a later pop follows what was written; the runs assume that users leave the overrun alone.
- AllocatorRuns.StepKeepsInv: a free comes from a thread that has allocated before, as `ConcurrentFree` asserts; with the tagging loop as written, requests are confined to classes with spans of one or two pages, the only ones whose addresses the text maps.
- The walk of `release_list_to_Spans` is a sequence of steps of the transition system, on sequences; its pointer form is not repeated in `Chains`. The same holds for locks, which exist only there.
- Data races on fields read without a lock, such as `_objsize` in `ConcurrentFree`, and the unlocked static pool of thread caches: one read is one atomic step.
- `ObjectPool` and `SpanList` are proved to do on memory and links what the record pool and the bucket sequences do as values; `PageCache` uses the values, and no object composes all of them.
- The memory the radix tree's own nodes take, and the failure of system calls for memory.
- `send` of a string from another thread queues a bare pointer to characters that may be gone when the loop runs it; the model's late send carries a copy, as `send` of a buffer does.
- `TcpConnection` methods ask what their callers grant: `connectEstablished` comes once, on a connection being set up, and a queued send after it.
- Sizes close to the 64-bit limit in `Buffer`, where `len + kCheapPrepend` would wrap.
- Connection callbacks (message, write complete, high water mark), the input side of a connection beyond `readFd`, and reference counting (`tie`).
- Event dispatch in `Channel::handleEventWithGuard` and the active-channel list of `poll`.
- Destruction of the timer queue, and timers added from other threads before the loop takes them over.
- HTTP, logging, sockets, addresses, thread pools and server bookkeeping.
