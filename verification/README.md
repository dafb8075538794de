# Verified model of the streamer's queues and of its buffer recycling

The streamer moves camera frames to an encoder and back over four threads that share nothing but
queues. This project models those queues, down to the single load and store, and the recycling
protocol on top of them, and proves what the code's comments only state.

Every component is modelled twice, where it makes sense:

* as a **transition system** with explicit program counters, one step for every load or store of a
  variable that another thread writes, so that every interleaving is a sequence of steps;
* as **objects** with fields, arrays and loops (the `...Heap` files), written like the methods of the
  source. The life of a `QueueHeap.ReaderWriterQueue` and of a `PipelineHeap.LibcameraStreamer`, and
  every call of a `SemaphoreHeap.LightweightSemaphore`, is proved, access by access, to be a run of the
  transition system.

| layer | transition system | objects |
|---|---|---|
| `ReaderWriterQueue` | `QueueSteps`, `QueueInvariant`, `QueueProducer`, `QueueConsumer`, `QueueRuns`, `QueueAnswers`, `QueueCapacity`, `QueueGrowth`, `QueueSize`, `QueueLifetime`, `QueueWaitFree`, `QueueTraces`, `QueueZeroSize`, `QueueSafeSizes` | `BlockHeap`, `QueueCalls`, `QueueHeap` |
| `LightweightSemaphore` | `Semaphore`, `SemaphoreCalls` | `SemaphoreHeap` |
| `BlockingReaderWriterQueue` | `BlockingQueue`, `BlockingCalls` | `BlockingQueueHeap` |
| `BlockingReaderWriterCircularBuffer` | `CircularBuffer`, `CircularCalls`, `CircularSafeSizes` | `CircularBufferHeap` |
| camera, encoder, streamer | `Pipeline` | `PipelineHeap` |

`Bits` holds the `size_t` arithmetic (masks, wrap-around, rounding up to a power of two), `Blocks` one
block as a value, `Allocation` the address arithmetic of the memory that is asked for, and how many cells
it has.

## How the model is to be read

`QueueSteps.Producer` and `QueueSteps.Consumer` name the source lines at which a thread can stand;
`ProducerStep` and `ConsumerStep` say what it does there. A step that would fail an assertion of the
source, follow a pointer to nowhere, reach beyond the cells of a block, construct over a live object or
destroy a dead one is a `Fault`.
A thread reads its own variables in the step that uses them, because nobody else writes them.
`QueueInvariant.Core` is the protocol invariant: `next` forms one cycle through all blocks; blocks
strictly between `frontBlock` and `tailBlock` are full; a `tailBlock` other than `frontBlock` is not
empty; blocks outside are empty but for one element on its way; `localFront` and `localTail` lag
behind; exactly the slots between `front` and `tail` hold objects. `QueueConsumer.EveryStep` is the
core theorem: every step of either thread keeps the invariant, faults never, and changes the abstract
contents by one append, one removal of the head, or not at all. What holds over whole runs is derived
from it, with a log (`QueueRuns.Log`) of what callers saw. `QueueAnswers`, `SemaphoreCalls`, `BlockingCalls`
and `CircularCalls` follow a single call from its beginning to its answer, begun after any run and
interleaved with the other thread in any way, and tie the answer to what the call has done.

`BlockingQueue` and `CircularBuffer` run the queue and the semaphores as products of their step
systems, so their theorems are about the same single steps. `Pipeline` takes the queues between the
threads as plain sequences, which is what the theorems about the queues justify.

Three things that the source lets a caller do go wrong, and the conditions are exact:

* The constructor of `ReaderWriterQueue` takes any `size`. With `size` 0 the first block has a single
  slot, an element put there later looks like none, and the assertion on line 351 fails. From 2^63 up,
  `ceilToPow2(size + 1)` wraps to 0 and the first enqueue constructs its element outside its block. And
  if block size times element size wraps on lines 731-732, malloc delivers less than the block uses.
  `QueueSafeSizes.SafeExactly` proves that the queue is safe on all runs if and only if
  `1 <= size < 2^63` and the memory for the largest block it can come to have fits a `size_t`.
* The constructor of `BlockingReaderWriterCircularBuffer` takes any `capacity` below 2^63, multiplies the
  rounded capacity by the size of an element on a `size_t`, and does not look at what malloc returns. With
  a capacity of 2^62 and elements of 8 bytes it asks for 7 bytes, and the first `try_enqueue` writes
  beyond them. `CircularSafeSizes.SafeExactly` proves that the buffer is safe on all runs if and only if
  the capacity is 0, or malloc succeeded, the capacity is below 2^63 and the product does not wrap.
* `signal` asserts `count >= 0`, but `signal(0)` while the waiter sleeps posts the kernel semaphore for
  nothing, and a later call is granted a token that nobody signalled. `Semaphore.SafeExactly` proves
  that a run is free of this, now and later, if and only if every signal of no tokens finds nobody to
  wake.

## Model

| member | source | states |
|---|---|---|
| QueueConsumer.EveryStep | readerwriterqueue/readerwriterqueue.h:285-644 | Every step of either thread keeps the protocol invariant, runs into no failed assert, bad pointer or double construction or destruction, and leaves the contents alone but for an append at the store to `tail` or `tailBlock` and a removal of the head at the store to `front`. |
| QueueProducer.ProducerSteps | readerwriterqueue/readerwriterqueue.h:535-644 | The producer's half of it: the fast path, the move to a free block ahead, the new block, and the assert on line 588. |
| QueueConsumer.ConsumerSteps | readerwriterqueue/readerwriterqueue.h:285-489 | The consumer's half: fast path, re-read of `tail` after `tailBlock`, the move to the next block, and the asserts on lines 351, 416 and 467. |
| QueueConsumer.ReadTailBlock | readerwriterqueue/readerwriterqueue.h:298-326 | The double check: having seen another `tailBlock`, the consumer knows that the producer will not write the front block again. |
| QueueConsumer.ReReadTail | readerwriterqueue/readerwriterqueue.h:329-340 | An empty front block is then empty for good and may be left without skipping an element. |
| QueueConsumer.ReadNextTail | readerwriterqueue/readerwriterqueue.h:345-351 | The next block is not empty, so the assert holds. |
| QueueConsumer.StoreFrontBlock | readerwriterqueue/readerwriterqueue.h:354-356 | Advancing `frontBlock` keeps the ring and the contents. |
| QueueConsumer.StoreFront | readerwriterqueue/readerwriterqueue.h:317-324 | The store to `front` removes the head, whose value was read before. |
| QueueProducer.ReadNext | readerwriterqueue/readerwriterqueue.h:572-577 | With the tail block full and `next` not the front block, the block ahead is free and stays so. |
| QueueProducer.ReadNextFront | readerwriterqueue/readerwriterqueue.h:580-589 | The free block is empty, so the assert holds, and it has room. |
| QueueProducer.Link | readerwriterqueue/readerwriterqueue.h:603-622 | Linking a new block behind the tail block keeps the cycle, while the consumer runs. |
| QueueProducer.StoreTailBlock | readerwriterqueue/readerwriterqueue.h:600-631 | The store to `tailBlock` appends the element constructed in the other block. |
| QueueRuns.StartOk | readerwriterqueue/readerwriterqueue.h:101-161 | The constructor, in both layouts, establishes the invariant for `1 <= size < 2^63` and memory sizes that do not wrap. |
| QueueRuns.InitialSizes | readerwriterqueue/readerwriterqueue.h:114-123 | Block size and count, computed with the rounding of a `size_t`, are fixed from both sides. One block, the least power of two with more than `size` slots, if `2 * MAX_BLOCK_SIZE` is enough for it; otherwise blocks of `MAX_BLOCK_SIZE`, as many as leave room for `size` without one of them, and not one more. |
| QueueRuns.NeverFaults | readerwriterqueue/readerwriterqueue.h:285-644 | On every run of any calls of both threads no assert fails, no pointer goes astray, no object is constructed twice or destroyed twice. |
| QueueRuns.Fifo | readerwriterqueue/readerwriterqueue.h:78-96 | Under every interleaving the dequeued values are a prefix of the enqueued ones, and the rest is what the queue holds. |
| QueueRuns.EmptyAnswerIsTrue | readerwriterqueue/readerwriterqueue.h:312-373 | If `try_dequeue` or `pop` returns false, or `peek` null, the queue was empty at some instant during the call. |
| QueueRuns.PeekAgrees | readerwriterqueue/readerwriterqueue.h:379-421 | What `peek` showed is alive and is what the next removal takes, from that slot, with that value, whatever the producer does; until then no call finds the queue empty. |
| QueueRuns.PeekShowsNextRemoved | readerwriterqueue/readerwriterqueue.h:379-384 | Over every run after a `peek`: the next value dequeued is the one shown, and until then no call finds the queue empty. |
| QueueRuns.TookIsLastDequeued | readerwriterqueue/readerwriterqueue.h:280-283 | The value a caller gets is the one last removed. |
| QueueAnswers.EnqueueAnswers | readerwriterqueue/README.md:21-22 | Over one call of `enqueue` or `try_enqueue`: true exactly if the element was enqueued, once; `enqueue` is refused only if malloc failed in this call; `try_enqueue` never allocates and is refused only if at least `size` elements were there at some instant of the call. |
| QueueAnswers.ConsumerAnswers | readerwriterqueue/readerwriterqueue.h:280-506 | Over one call of the consumer: a dequeue has removed exactly the value it delivers, the oldest, or nothing if it delivers none; `peek` and `size_approx` remove nothing; each answers in its own kind. |
| QueueAnswers.ProducerSizeAnswers | readerwriterqueue/readerwriterqueue.h:491-506 | Over one `size_approx` of the producer: the answer is a number, and nothing is enqueued. |
| QueueCapacity.TryEnqueueFailsOnlyWhenFull | readerwriterqueue/readerwriterqueue.h:97-123 | The constructor's promise on every run: `try_enqueue` fails only if at least `size` elements were in the queue during the call. |
| QueueCapacity.FullAnswerIsTrue | readerwriterqueue/readerwriterqueue.h:557-636 | The same as an instant of the call: after one of its steps at least `size` elements were in the queue. |
| QueueCapacity.WholeRingFull | readerwriterqueue/readerwriterqueue.h:118-123 | A full tail block with the front block behind it means that every other block is full. |
| QueueCapacity.MemoryBound | readerwriterqueue/readerwriterqueue.h:93-96 | Blocks are never removed, yet if no instant of the run saw more than `limit` elements, all slots together are at most `2 * size` (the initial ones are fewer), or `limit` plus two blocks of the greatest size; every block is a power of two of at most `2 * MAX_BLOCK_SIZE`. |
| QueueCapacity.InitialCapacity | readerwriterqueue/readerwriterqueue.h:114-143 | The constructor allocates room for `size` elements and less than twice as much; with several blocks less than `size` and two blocks; several exactly if `2 * MAX_BLOCK_SIZE` is not enough. |
| QueueGrowth.MemoryIsProportional | readerwriterqueue/readerwriterqueue.h:603-616 | All slots together are at most `2 * size` or `7 * (limit + 1)`, whatever `MAX_BLOCK_SIZE` is: doubling the block size keeps memory proportional to the greatest length. |
| QueueCapacity.CapacityNext | readerwriterqueue/readerwriterqueue.h:603-631 | Only linking a new block changes the number of slots. |
| QueueSize.ConsumerSizeBracket | readerwriterqueue/readerwriterqueue.h:491-506 | `size_approx` called by the consumer returns at least the length at entry and at most the length at return, plus one if an element is on its way into a new tail block. |
| QueueSize.ProducerSizeBracket | readerwriterqueue/readerwriterqueue.h:491-506 | Called by the producer it returns a number between the length at return and the length at entry. |
| QueueSize.CountIsLength | readerwriterqueue/readerwriterqueue.h:500-502 | `(blockTail - blockFront) & sizeMask` counts a block's elements although the difference may wrap. |
| QueueLifetime.EveryElementDestroyedOnce | readerwriterqueue/readerwriterqueue.h:204-228 | After any run the destructor stops by itself having visited each block once; the live objects are those it walks over; with the dequeued values they are the enqueued values in order. |
| QueueZeroSize.ZeroSizeFaults | readerwriterqueue/readerwriterqueue.h:116-117 | A run of a queue constructed for 0 elements that fails the assert on line 351. |
| QueueSafeSizes.HugeSizeFaults | readerwriterqueue/readerwriterqueue.h:116-146 | For every size from 2^63 up the first enqueue constructs its element outside the memory of its block. |
| QueueSafeSizes.WrappedSizeFaults | readerwriterqueue/readerwriterqueue.h:603-616 | If the memory computed for the first block, or for one it will grow to, wraps, a run of enqueues alone constructs an element outside its block. |
| QueueSafeSizes.SafeExactly | readerwriterqueue/readerwriterqueue.h:98-155 | The queue is safe on all runs if and only if `1 <= size < 2^63` and line 733 computes, for the largest block there can be, less than 2^64 bytes. |
| QueueWaitFree.EnqueueIsWaitFree | readerwriterqueue/README.md:25 | An enqueue returns with its seventh own step at the latest, whatever the other thread does. |
| QueueWaitFree.DequeueIsWaitFree | readerwriterqueue/README.md:25 | A dequeue, pop or peek returns with its ninth own step at the latest. |
| QueueWaitFree.ConsumerSizeIsWaitFree | readerwriterqueue/readerwriterqueue.h:491-506 | `size_approx` called by the consumer takes at most two of its own steps for each block there is when it returns, although the producer may link in blocks under way. |
| QueueWaitFree.ProducerSizeIsWaitFree | readerwriterqueue/readerwriterqueue.h:491-506 | Called by the producer it takes one step more than there were blocks at entry, at most. |
| QueueCalls.StepLogged | readerwriterqueue/readerwriterqueue.h:285-644 | Extending the run that an object has made by the step of its next access gives a run again, with the contents changed as that step says. |
| QueueCalls.FrontHead | readerwriterqueue/readerwriterqueue.h:379-381 | As soon as the front block shows an element, the head of the queue is at its `front`. |
| QueueCalls.NextHead | readerwriterqueue/readerwriterqueue.h:411-417 | Otherwise the head is at `front` of the next block, which `peek` may show without going there. |
| QueueHeap.ReaderWriterQueue.constructor | readerwriterqueue/readerwriterqueue.h:101-161 | For every size, builds the start of a run of the step system; for the arguments that are safe, an empty queue ready for use, with room for `size` elements and less than twice as much. |
| BlockHeap.MakeRing | readerwriterqueue/readerwriterqueue.h:122-143 | The loop links the new blocks in one circle, each empty. |
| BlockHeap.Block.constructor | readerwriterqueue/readerwriterqueue.h:709-712 | A new block: all indices 0, raw cells, not linked; a capacity of 0 wraps the mask. |
| BlockHeap.DestroyRing | readerwriterqueue/readerwriterqueue.h:210-227 | The outer loop of the destructor visits each block once, follows no link of a freed block, and leaves nothing alive. |
| BlockHeap.DestroyElements | readerwriterqueue/readerwriterqueue.h:213-221 | The inner loop destroys a block's elements in order and nothing else. |
| QueueHeap.ReaderWriterQueue.InnerEnqueue | readerwriterqueue/readerwriterqueue.h:535-644 | Every branch appends the element or changes nothing, is a run of the producer's steps, and adds at most one block, a new one; a refusal means that memory ran out or that the block ahead was the front block. |
| QueueHeap.ReaderWriterQueue.PutInNext | readerwriterqueue/readerwriterqueue.h:580-601 | The free block ahead takes the element, and the assert on line 588 holds. |
| QueueHeap.ReaderWriterQueue.LookInFront | readerwriterqueue/readerwriterqueue.h:308-338 | The double-checked search of the front block, both tests of `tail` included, step by step. |
| QueueHeap.ReaderWriterQueue.AdvanceFront | readerwriterqueue/readerwriterqueue.h:340-356 | Leaving the empty front block keeps the contents, and the assert on line 351 holds. |
| QueueHeap.ReaderWriterQueue.TryEnqueue | readerwriterqueue/readerwriterqueue.h:231-245 | Appends, allocates nothing, and refuses only if the promised number of elements is in the queue. |
| QueueHeap.ReaderWriterQueue.Enqueue | readerwriterqueue/readerwriterqueue.h:255-270 | Appends; refuses only if memory runs out. |
| QueueHeap.ReaderWriterQueue.PutInNew | readerwriterqueue/readerwriterqueue.h:605-631 | The new block of the size the step system says is linked behind the tail block with the element in it, unless memory ran out. |
| QueueHeap.ReaderWriterQueue.TryDequeue | readerwriterqueue/readerwriterqueue.h:280-376 | Returns and removes the head, or leaves an empty queue; no block is lost. |
| QueueHeap.ReaderWriterQueue.Pop | readerwriterqueue/readerwriterqueue.h:423-489 | Removes the head if there is one. |
| QueueHeap.ReaderWriterQueue.Peek | readerwriterqueue/readerwriterqueue.h:379-421 | Shows the head and leaves the contents alone; nothing is shown exactly if the queue is empty. |
| QueueHeap.ReaderWriterQueue.SizeApprox | readerwriterqueue/readerwriterqueue.h:491-506 | With no other thread at work the walk ends and its count is exact. |
| QueueHeap.ReaderWriterQueue.MaxCapacity | readerwriterqueue/readerwriterqueue.h:508-527 | The walk ends with the sum of `sizeMask` over all blocks, the capacity that `QueueCapacity.MemoryBound` bounds. |
| QueueHeap.ReaderWriterQueue.Destruct | readerwriterqueue/readerwriterqueue.h:204-228 | Destroys exactly the contents, in order, each object once; frees each block once; leaves nothing alive. |
| Blocks.PublishedOk | readerwriterqueue/readerwriterqueue.h:568 | Storing `tail` appends to a block the element constructed before. |
| Blocks.ReleasedOk | readerwriterqueue/readerwriterqueue.h:321-324 | Storing `front` removes a block's head. |
| Blocks.RoomTest | readerwriterqueue/readerwriterqueue.h:556-557 | The room test fails exactly if the block is full, when `localFront` is up to date; a stale `localFront` never lets the producer overrun. |
| Bits.CeilToPow2 | readerwriterqueue/readerwriterqueue.h:654-666 | The bit-smearing loop returns the least power of two not below its argument from 1 to 2^63, and 0 otherwise. |
| Bits.LeastPow2IsLeast | readerwriterqueue/readerwriterqueue.h:656 | What the loop is measured by: a power of two, and no smaller one will do. |
| Bits.SmearStep | readerwriterqueue/readerwriterqueue.h:658-663 | One step of the smearing, or-ing `x` with `x >> w`, doubles the run of leading ones. |
| Bits.MaskIsMod | readerwriterqueue/readerwriterqueue.h:321 | `& sizeMask` is the remainder modulo the block size. |
| Bits.MaskedDifference | readerwriterqueue/readerwriterqueue.h:502 | The masked difference of two indices, although it may wrap modulo 2^64. |
| Allocation.AlignFor | readerwriterqueue/readerwriterqueue.h:668-673 | The aligned address is the first multiple of the alignment at or after the given one. |
| Allocation.BlockFits | readerwriterqueue/readerwriterqueue.h:728-741 | Wherever malloc puts the memory, header and elements are aligned, disjoint, and inside it. |
| Allocation.FitsExactly | readerwriterqueue/readerwriterqueue.h:730-733 | At every address malloc may return, the last element lies inside what it was asked for if and only if the size does not wrap. |
| Allocation.NoMoreCells | readerwriterqueue/readerwriterqueue.h:730-741 | The cells that the model gives a block: at no address is there memory for more. |
| Allocation.RoomExactly | readerwriterqueue/readerwriterqueue.h:730-733 | All blocks up to a size get a cell for each element if and only if the memory size of the largest does not wrap. |
| Allocation.RingFitsExactly | readerwriterqueue/readerwritercircularbuffer.h:48-50 | At every address malloc may return, the circular buffer's last cell lies inside what it was asked for if and only if the size does not wrap. |
| Semaphore.StepKeeps | readerwriterqueue/atomicops.h:667-745 | Every step keeps the invariant (so the assert on line 740 holds), and a token disappears exactly when a call returns true. |
| Semaphore.SignalKeepsExactly | readerwriterqueue/atomicops.h:736-745 | One step: a signal keeps the invariant if and only if it carries a token or finds no sleeper. |
| Semaphore.HarmDone | readerwriterqueue/atomicops.h:736-745 | After any `signal(0)` that found a sleeper there is a continuation without signals in which more calls are granted than there were tokens. |
| Semaphore.SafeExactly | readerwriterqueue/atomicops.h:736-745 | A run can come to that, at once or later, if and only if one of its signals carries no token and finds a waiter to wake. |
| Semaphore.DeniedMeans | readerwriterqueue/atomicops.h:698-702 | A call is refused only at a step at which there was no token. |
| Semaphore.EveryRun | readerwriterqueue/atomicops.h:667-745 | Over every run whose signals of no tokens, if any, find nobody to wake: tokens are conserved, the assert on line 740 holds, and kernel count plus posts under way are one exactly if the waiter has gone below zero and been made up for. |
| Semaphore.NoLostWakeup | readerwriterqueue/atomicops.h:686-707 | A sleeper for whom there is a token is about to be woken, one for whom there is none finds no stale post, and none is left when a call has returned. |
| Semaphore.RankFalls | readerwriterqueue/atomicops.h:698-707 | Each step of the waiter brings it nearer the exit of the back-out loop, except a failed `try_wait`, which happens only between the two steps of a signal. |
| Semaphore.BackOutTerminates | readerwriterqueue/atomicops.h:698-707 | Unless it is sent round again in that way, the waiter leaves the loop within four of its own steps. |
| SemaphoreCalls.CallAnswers | readerwriterqueue/atomicops.h:667-734 | Over one call, whatever the other thread does: true exactly if a token was consumed; a caller with a timeout other than 0 gives up only after a kernel wait of this call has failed or timed out. |
| SemaphoreCalls.NeverSleeps | readerwriterqueue/atomicops.h:683-692 | `tryWait`, and a `wait` with timeout 0, are at no instant asleep in the kernel. |
| SemaphoreCalls.TimeoutMeans | readerwriterqueue/atomicops.h:683-707 | Both meanings of the timeout of a `wait` together. |
| SemaphoreCalls.SpinsBeforeSleep | readerwriterqueue/atomicops.h:670-683 | Nobody sleeps who has not looked for a token 1025 times first. |
| SemaphoreCalls.CallReturns | readerwriterqueue/atomicops.h:667-734 | Every call returns within a bounded number of its own steps, not counting those that find it still asleep, unless a signal caught between its two steps sends it round the back-out loop. |
| SemaphoreCalls.PromptReturns | readerwriterqueue/atomicops.h:716-734 | `tryWait` returns with its second step at the latest, a `wait` with timeout 0 within the spins and eight steps, with the same proviso. |
| SemaphoreHeap.LightweightSemaphore.Wait | readerwriterqueue/atomicops.h:726-734 | For every schedule of the other thread and every kernel failure the call is the run of the step system along that schedule; true takes one token, false none; with timeout 0 it never sleeps, with any other it returns false only after a kernel wait has failed. |
| SemaphoreHeap.LightweightSemaphore.TryWait | readerwriterqueue/atomicops.h:716-724 | The same for `tryWait`, which never sleeps. |
| SemaphoreHeap.LightweightSemaphore.WaitWithPartialSpinning | readerwriterqueue/atomicops.h:667-708 | The spin loop, the kernel wait and the back-out loop, step by step along the schedule, with what the timeout means. |
| SemaphoreHeap.LightweightSemaphore.BackOut | readerwriterqueue/atomicops.h:698-707 | The back-out loop ends with one token or with none. |
| SemaphoreHeap.LightweightSemaphore.Signal | readerwriterqueue/atomicops.h:736-742 | Adds the tokens and has the kernel posted exactly if the count was negative; the semaphore is in order afterwards if and only if the signal brought a token or found nobody to wake. |
| SemaphoreHeap.LightweightSemaphore.AvailableApprox | readerwriterqueue/atomicops.h:747-751 | The count, or 0 if it is negative; exact while nobody waits. |
| BlockingQueue.StepKeeps | readerwriterqueue/readerwriterqueue.h:784-943 | Every step of either thread, in either layer, keeps the combined invariant. |
| BlockingQueue.NeverFails | readerwriterqueue/readerwriterqueue.h:861-903 | On every run, timed-out waits included, `assert(success)` holds after the semaphore said yes. |
| BlockingQueue.LengthIsTokens | readerwriterqueue/readerwriterqueue.h:945-950 | Length equals unclaimed tokens plus enqueues not yet signalled plus claims not yet redeemed; `size_approx` never exceeds the length, falls short by at most two, and is exact between calls. |
| BlockingQueue.BlockingFifo | readerwriterqueue/readerwriterqueue.h:857-903 | What a blocking call returns is what was dequeued last, and the dequeued values are a prefix of the enqueued ones. |
| BlockingQueue.RefusalIsTrue | readerwriterqueue/readerwriterqueue.h:857-903 | When `try_dequeue`, `pop` or `wait_dequeue_timed` comes back with nothing, then at the step that refused it the only element there can have been one whose enqueue had not signalled it yet. |
| BlockingQueue.SleeperIsWoken | readerwriterqueue/readerwriterqueue.h:876-883 | A consumer asleep while an element is there is about to be woken. |
| BlockingCalls.InnerRun | readerwriterqueue/readerwriterqueue.h:784-943 | What the inner queue goes through in any run is a run of `QueueSteps`, so all theorems about the queue hold of it. |
| BlockingCalls.EnqueueAnswers | readerwriterqueue/readerwriterqueue.h:784-829 | Over one call: true exactly if the element was enqueued, once; `enqueue` is refused only if malloc failed in this call; `try_enqueue` never allocates and is refused only if the promised number of elements was there. |
| BlockingCalls.DequeueAnswers | readerwriterqueue/readerwriterqueue.h:857-903 | Over one call: the value delivered, the oldest, is what the call removed, and nothing else; `wait_dequeue` returns only with a value; a timed wait returns without one only if a kernel wait of this call failed or timed out, or its timeout is 0; it sleeps with its own timeout, and `try_dequeue` never. |
| BlockingCalls.PeekAnswers | readerwriterqueue/readerwriterqueue.h:922-929 | `peek` removes nothing and answers with an address or with null. |
| BlockingCalls.EnqueueIsWaitFree | readerwriterqueue/readerwriterqueue.h:784-829 | An enqueue returns with its ninth own step at the latest, whatever the other thread does. |
| BlockingCalls.TryDequeueIsWaitFree | readerwriterqueue/readerwriterqueue.h:861-870 | A `try_dequeue` or `pop` returns with its twelfth own step at the latest. |
| BlockingQueueHeap.BlockingReaderWriterQueue.TryDequeue | readerwriterqueue/readerwriterqueue.h:861-870 | Returns and removes the head; the inner call succeeds whenever there was a token. |
| BlockingQueueHeap.BlockingReaderWriterQueue.Pop | readerwriterqueue/readerwriterqueue.h:931-943 | The same, dropping the value. |
| BlockingQueueHeap.BlockingReaderWriterQueue.TryEnqueue | readerwriterqueue/readerwriterqueue.h:784-791 | Appends and adds a token, or refuses because the promised number of elements is there. |
| CircularBuffer.StepKeeps | readerwriterqueue/readerwritercircularbuffer.h:99-266 | Every step of either thread keeps the combined invariant. |
| CircularBuffer.NeverFaults | readerwriterqueue/readerwritercircularbuffer.h:251-266 | On every run of a buffer whose memory was delivered and did not wrap in size, or whose capacity is 0, no assert fails, the producer never constructs into a cell in use, the consumer never takes from one that is not. |
| CircularSafeSizes.SafeExactly | readerwriterqueue/readerwritercircularbuffer.h:34-51 | The buffer can be made, and is safe on every run, if and only if its capacity is 0, or malloc delivered, the capacity is below 2^63 and the memory size does not wrap. |
| CircularSafeSizes.MissingCellFaults | readerwriterqueue/readerwritercircularbuffer.h:49-50 | Otherwise items going in and out one by one come to a cell that is not there, be it the first or the last of the ring. |
| CircularSafeSizes.WrappedSizeFaults | readerwriterqueue/readerwritercircularbuffer.h:49 | A capacity of 2^62 and items of 8 bytes: malloc is asked for 7 bytes, and the first `try_enqueue` constructs its item beyond them. |
| CircularBuffer.SizeApproxBracket | readerwriterqueue/readerwritercircularbuffer.h:237-240 | While both threads run, `size_approx` never exceeds the number of items and falls short of it by at most two; between calls it is exact. |
| CircularBuffer.RefusalIsTrue | readerwriterqueue/readerwritercircularbuffer.h:99-217 | A refused wait is answered with false. When a dequeue is refused, every item there is one not yet announced; when an enqueue is refused, every free slot is one not yet given back. |
| CircularBuffer.Conservation | readerwriterqueue/readerwritercircularbuffer.h:99-222 | Free slots, items and operations holding one or the other sum to the capacity; the items taken out are, in order, a prefix of those put in. |
| CircularCalls.EnqueueAnswers | readerwriterqueue/readerwritercircularbuffer.h:99-180 | Over one call: true exactly if the item was put in, once; `wait_enqueue` returns only with true; a timed wait answers false only if a kernel wait of this call failed or timed out, or its timeout is 0; it sleeps with its own timeout, and `try_enqueue` never. |
| CircularCalls.DequeueAnswers | readerwriterqueue/readerwritercircularbuffer.h:188-234 | Over one call: the item delivered, the oldest, is what the call took out, and nothing else; and the same about waiting. |
| CircularCalls.TryEnqueueIsWaitFree | readerwriterqueue/readerwritercircularbuffer.h:99-105 | A `try_enqueue` returns with its fifth own step at the latest, whatever the other thread does. |
| CircularCalls.TryDequeueIsWaitFree | readerwriterqueue/readerwritercircularbuffer.h:192-198 | The same for `try_dequeue`. |
| CircularBuffer.WrappedIndex | readerwriterqueue/readerwritercircularbuffer.h:253-263 | `i & mask` names the right cell after `nextSlot` and `nextItem` have wrapped modulo 2^64. |
| CircularBuffer.StartOk | readerwriterqueue/readerwritercircularbuffer.h:34-51 | The rounded mask has room for the capacity; a capacity of 0 is harmless although it wraps. |
| CircularBuffer.QuiescentDestruction | readerwriterqueue/readerwritercircularbuffer.h:64-71 | At rest `size_approx` is exact and the destructor's loop meets each remaining item once and no dead cell. |
| CircularBufferHeap.BlockingReaderWriterCircularBuffer.constructor | readerwriterqueue/readerwritercircularbuffer.h:34-51 | Builds the start of a run of the step system, whatever malloc answers; for the arguments that are safe, an empty buffer ready for use. |
| CircularBufferHeap.BlockingReaderWriterCircularBuffer.TryEnqueue | readerwriterqueue/readerwritercircularbuffer.h:99-105 | Appends if and only if there is room. |
| CircularBufferHeap.BlockingReaderWriterCircularBuffer.TryDequeue | readerwriterqueue/readerwritercircularbuffer.h:188-198 | Returns and removes the first item, or leaves an empty buffer. |
| CircularBufferHeap.BlockingReaderWriterCircularBuffer.SizeApprox | readerwriterqueue/readerwritercircularbuffer.h:237-240 | The number of items. |
| CircularBufferHeap.BlockingReaderWriterCircularBuffer.Destruct | readerwriterqueue/readerwritercircularbuffer.h:66-71 | Destroys the items in order, each once, and leaves nothing alive. |
| Pipeline.CameraNeverOverwrites | src/camera_wrapper.cpp:196-250 | No request whose frame buffer the encoder, or a thread on the way to it, still holds is with the camera or about to be. |
| Pipeline.ReusesInOrder | src/camera_wrapper.cpp:244-250 | The k-th request reused is the k-th completed, and its frame has by then been encoded or skipped, although skips break the pairing. |
| Pipeline.OrderIsNeeded | src/h264_encoder.cpp:285-302 | The order in which the device returns its inputs is needed: in every reachable state without a skipped frame, returning input `i` next gives the camera a buffer that the device still holds if and only if `i` is not the first. |
| Pipeline.OutOfOrderRun | src/h264_encoder.cpp:285-302 | A run, with two requests and two buffers, to such a state. |
| Pipeline.ReuseWaitsForCamera | src/camera_wrapper.cpp:204-247 | `ReuseRequest` waits only for a completion that stands between the two enqueues. |
| Pipeline.SkipsAreBounded | src/h264_encoder.cpp:197-202 | No more frames are skipped over a whole run than there are requests beyond the encoder's input buffers. |
| Pipeline.DrainedPipeline | src/h264_encoder.cpp:293-300 | Each skip retires one request for good; once drained, the camera has all others, at least the smaller of requests and buffers, less those cancelled. |
| Pipeline.BuffersConserved | src/h264_encoder.cpp:112-115 | Each input buffer index is in exactly one place at any time. |
| Pipeline.BuffersTakeTurns | src/h264_encoder.cpp:197-299 | The encoder's input buffers take frames in the order in which they became available. |
| Pipeline.StepKeeps | src/libcamera_streamer.cpp:86-121 | Every step of the four threads keeps counts, order and ownership. |
| PipelineHeap.MakeRequests | src/camera_wrapper.cpp:153-194 | Succeeds if and only if the frame buffers run out between two requests; then each is in one request, in order. |
| PipelineHeap.CameraWrapper.constructor | src/camera_wrapper.cpp:140-144 | The loop queues every request with the camera. |
| PipelineHeap.LibcameraStreamer.OnRequestComplete | src/camera_wrapper.cpp:196-207 | The camera's callback is a run of `Pipeline`: completion into both queues, or cancellation. |
| PipelineHeap.LibcameraStreamer.ProcessCompletedRequest | src/h264_encoder.cpp:194-222 | One round of the streamer's loop is a run of `Pipeline`: the frame takes a free input buffer to the device, or is skipped exactly if there is none. |
| PipelineHeap.H264Encoder.constructor | src/h264_encoder.cpp:112-115 | The loop makes every input buffer available, in order. |
| PipelineHeap.LibcameraStreamer.CompletedRequestsProcessor | src/libcamera_streamer.cpp:86-102 | Until it would wait, it queues as many frames as there are free input buffers and skips the rest. |
| PipelineHeap.LibcameraStreamer.PollReadyToReuseOutputBuffers | src/h264_encoder.cpp:285-302 | Frees the index, then hands back a request that is neither with the camera nor held by the encoder; the wait in it ends at once. |
| PipelineHeap.LibcameraStreamer.PollEncoder | src/h264_encoder.cpp:262-283 | Until the device is empty, one request goes back to the camera for each input returned. |
| PipelineHeap.NextReuse | src/libcamera_streamer.cpp:117-121 | When the callback runs there is a request to reuse, and its frame buffer is free. |

## Left out

- Weak memory: every load and store is sequentially consistent. Fences, `weak_atomic` orderings, cache-line padding and the platform variants of `atomicops.h` are not modelled.
- The kernel semaphore is a counter with post, wait, try-wait and a wait that may fail or time out at any moment; clocks, EINTR retries and the platform classes are left out.
- One producer and one consumer are assumed, as the debug `ReentrantGuard` demands; a call starts only after the previous call of the same thread has returned.
- Semaphore counts and the sums in `size_approx` and `max_capacity` are unbounded integers; the source's are 64 bits wide and would need 2^63 elements to differ.
- malloc delivers as many bytes as it is asked for, or, in `enqueue` and for the circular buffer, nothing; if the constructor of `ReaderWriterQueue` gets nothing it aborts, and there is no queue. No type is empty, and `Block` and `T` together take less than 2^64 bytes. `MAX_BLOCK_SIZE` is taken to be at most 2^62, so that twice its value is a `size_t`.
- QueueHeap.ReaderWriterQueue.constructor: for the arguments that `QueueSafeSizes.SafeExactly` shows to go wrong the object is built, but no method may be called on it; what calls then do is in the step system.
- CircularBufferHeap.BlockingReaderWriterCircularBuffer.constructor: the same for the arguments that `CircularSafeSizes.SafeExactly` excludes; a capacity from 2^63 up fails the assertion of the semaphore's constructor.
- SemaphoreHeap.LightweightSemaphore.Wait: in its schedules every signal carries a token; `Semaphore.HarmDone` shows what a `signal(0)` that finds a sleeper does.
- Move construction, assignment, `swap`, and the copy, move and emplace variants of enqueue: one enqueue of a value stands for all. Exceptions thrown by an element's constructor or assignment are left out.
- In `QueueHeap`, `BlockingQueueHeap` and `CircularBufferHeap` one thread makes every call; what two threads do to each other is in the step systems.
- `peek` of `BlockingReaderWriterQueue` does not touch the semaphore, so nothing is said about a `try_dequeue` after it while the producer runs.
- In the `wait_enqueue` and `wait_dequeue` families the blocking forms appear in the step systems only; that they return at all depends on the other thread and is not claimed.
- SemaphoreHeap.LightweightSemaphore.TryWait: like `Wait`, returns no answer if the schedule ends first; a schedule stands for what the other thread does, and it may stop in the middle of a signal.
- Pipeline.ReusesInOrder: assumes, as the code does, that the device returns its inputs in the order in which they were queued; `Pipeline.OrderIsNeeded` shows what happens otherwise.
- The encoder's output side (`pollReadyToProcessCaptureBuffers`, `OutputDone`, `encodedFramesProcessor`), timestamps, RTP sending, V4L2 and libcamera calls, mapped memory, option structs and logging.
- Device errors that throw, and shutdown: the stop flags are read only between waits, so no clean termination is claimed. Cancelled requests leave the pipeline.
