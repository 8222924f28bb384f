# cppcoro: a Dafny verification of its coroutine primitives

`cppcoro` is a library of lock-free coroutine primitives. This project models its protocols as state
machines whose actions are single atomic operations, proves invariants of every run of them with any number
of threads, and shows that methods over the program's own fields (wrapping 64-bit words, packed counters,
masked arrays, linked operations) take exactly the steps of those machines. Memory is sequentially
consistent; a weak compare-and-swap may fail spuriously; resuming a coroutine is recorded as its continuation.

| files | what they model |
|---|---|
| Words, SequenceRange | 64-bit words, the wrap-around order, masking, ranges of sequence numbers |
| Lists, IntrusiveLists, Operations | stacks and queues; pointer loops that reverse, split and join lists of linked operations |
| Deque, ThreadState | the work-stealing queue of a pool thread: linearizability with any number of thieves |
| GlobalQueue, RemoteQueue | the thread pool's global queue |
| AutoResetEvent, AsyncAutoResetEvent | the event whose packed word is also the lock on its wait list |
| Barrier, SequenceBarrier | the barrier of the ring buffers: wait lists that are taken, split, put back and looked at again |
| Ring, MultiProducerSequencer, SingleProducerSequencer | claiming and publishing slots of a ring |
| Cancellation, CancellationState | registrars, destructors and one canceller racing on slots |
| RecursiveGenerator | nested generators as one flat sequence |
| AsyncGenerator, AsyncGeneratorPromise | the producer/consumer hand-off without symmetric transfer |
| Mutex, AsyncMutex | the asynchronous mutex |
| TimedOperations, Heaps, TimerQueue | the timer queue of the I/O service |
| Text, Ipv4Address, Ipv6Address, Endpoints | textual forms of addresses and endpoints |

In the machine files `Apply` gives the effect of every atomic step, `Enabled` says when it can happen, `Reaches`
follows a run, and fields of the state that only record what happened carry the statements about whole runs.
In the class files every method that is a single step ensures that the machine's state after it is `Apply` of the
state before, and that the concrete fields still stand for that state. The methods further down in these classes
are whole calls made of such steps. Between two steps they call `Others`, whose body does nothing, but whose
contract says no more than that others have made any number of steps; so what is proved of a call holds
whatever they do.
A ghost number `n` bounds how often a call is interrupted or a weak compare-and-swap fails, and
the `left` returned is what remains of it; `left == n` says that the call ran alone, and contracts then state
its whole effect. The table calls that "alone".

Three findings differ from what one might expect of the program:

- `try_local_pop` may return null while an operation is queued. A thief that lost its race stores the tail back
  late; if the owner has meanwhile emptied the deque and enqueued again, head and tail words are equal
  although one operation is live. `Deque.CheapCheckCanMissWork` gives the run, `Deque.CheapCheckIsTruthfulIff`
  the exact condition. The check under the lock is truthful, and nothing is lost.
- The one-megabyte cap on the local queue compares a mask with a power of two and never applies
  (`Deque.SizeCapIsNeverHit`).
- `publish` and `add_awaiter` of the sequence barrier ask different questions about a target; they differ exactly
  when it is half the range away (`IntrusiveLists.QuestionsAgreeIff`).

## Model

| member | source | states |
|---|---|---|
| `Words.DifferenceOfWraps` | Example_3_std_boost/libs/cppcoro/include/cppcoro/sequence_traits.hpp:21-24 | within half the range the signed difference of two wrapped numbers is their true difference |
| `Words.SlotOfWrap` | Example_3_std_boost/libs/cppcoro/lib/static_thread_pool.cpp:124-125 | masking the word of an unbounded position gives its slot, because the ring size is a power of two |
| `Words.SlotsNearbyDiffer` | Example_3_std_boost/libs/cppcoro/include/cppcoro/multi_producer_sequencer.hpp:240-246 | two positions less than one ring apart share a slot only when they are equal |
| `Words.SlotOneRingAway` | Example_3_std_boost/libs/cppcoro/include/cppcoro/multi_producer_sequencer.hpp:569-571 | positions one ring apart share a slot |
| `Deque.StepKeepsInv` | Example_3_std_boost/libs/cppcoro/lib/static_thread_pool.cpp:100-284 | every atomic load, store or lock step of the owner and of any thief keeps linearizability: the history is one of a sequential deque and the live slots hold its contents |
| `Deque.EveryRunIsLinearizable` | Example_3_std_boost/libs/cppcoro/lib/static_thread_pool.cpp:100-284 | in every run each enqueued operation has been returned by exactly one pop or steal, in deque order, or is in a live slot |
| `Deque.LegalHistoriesConserve` | Example_3_std_boost/libs/cppcoro/lib/static_thread_pool.cpp:181-284 | in a legal history the enqueued operations are the returned ones together with what is still queued, as multisets |
| `Deque.GrownSpan` | Example_3_std_boost/libs/cppcoro/lib/static_thread_pool.cpp:161-173 | the copy into the doubled ring keeps every live operation and adds the new one at the end, whatever the new block contained |
| `Deque.PutKeepsSpan` | Example_3_std_boost/libs/cppcoro/lib/static_thread_pool.cpp:122-127 | a store at the head overwrites no live operation as long as there is room |
| `Deque.LockedCheckIsTruthful` | Example_3_std_boost/libs/cppcoro/lib/static_thread_pool.cpp:216-230 | the check under the lock finds the deque empty only when it is |
| `Deque.CheapCheckIsTruthfulIff` | Example_3_std_boost/libs/cppcoro/lib/static_thread_pool.cpp:183-190 | the check without the lock is truthful, up to one operation a thief is bound to return, iff no thief is about to store a tail it took back over a head that has come to equal it |
| `Deque.CheapCheckCanMissWork` | Example_3_std_boost/libs/cppcoro/lib/static_thread_pool.cpp:183-190 | a run after which `try_local_pop` returns null although an operation is queued that no thief is bound to |
| `Deque.CheapCheckIsTruthfulWhenFree` | Example_3_std_boost/libs/cppcoro/lib/static_thread_pool.cpp:183-190 | what the owner can see: with the lock free an empty-looking deque is empty; with the tail ahead of the head nothing is left, or what a thief is bound to |
| `Deque.BoundItemIsServed` | Example_3_std_boost/libs/cppcoro/lib/static_thread_pool.cpp:248-284 | an operation a thief is bound to stays bound, with the lock held, until that thief returns it |
| `Deque.SizeCapIsNeverHit` | Example_3_std_boost/libs/cppcoro/lib/static_thread_pool.cpp:130-135 | the size cap compares a mask with a power of two, so it never stops a growth |
| `Deque.SpaceIsRoom` | Example_3_std_boost/libs/cppcoro/lib/static_thread_pool.cpp:106-128 | as long as fewer operations than the mask are queued at the start of an enqueue, its room check succeeds, whatever thieves do before it: they lower the number of free slots by no more than one |
| `Deque.ThievesLeaveOwner` | Example_3_std_boost/libs/cppcoro/lib/static_thread_pool.cpp:248-284 | thieves take operations from the old end only, and none while the owner holds the lock |
| `ThreadStates.ThreadState.constructor` | Example_3_std_boost/libs/cppcoro/lib/static_thread_pool.cpp:35-44 | an empty queue of the initial size |
| `ThreadStates.ThreadState.BeginEnqueue` | Example_3_std_boost/libs/cppcoro/lib/static_thread_pool.cpp:100-104 | the load of the head is the start step of an enqueue |
| `ThreadStates.ThreadState.EnqueueLoadTail` | Example_3_std_boost/libs/cppcoro/lib/static_thread_pool.cpp:121-148 | the signed distance of the cursor words decides about room as the true distance does, then the cap and the allocation |
| `ThreadStates.ThreadState.EnqueueStoreSlot` | Example_3_std_boost/libs/cppcoro/lib/static_thread_pool.cpp:125-125 | the masked store is the store at the head position |
| `ThreadStates.ThreadState.StoreAdvancedHead` | Example_3_std_boost/libs/cppcoro/lib/static_thread_pool.cpp:126-127 | storing the advanced head publishes the operation |
| `ThreadStates.ThreadState.GrowTryLock` | Example_3_std_boost/libs/cppcoro/lib/static_thread_pool.cpp:150-156 | the growth gives up when the lock is taken |
| `ThreadStates.ThreadState.CopyQueue` | Example_3_std_boost/libs/cppcoro/lib/static_thread_pool.cpp:163-170 | the loop over wrapping positions, masked for both rings, copies exactly the live positions |
| `ThreadStates.ThreadState.GrowCopy` | Example_3_std_boost/libs/cppcoro/lib/static_thread_pool.cpp:158-173 | the new ring holds the live operations and the new one |
| `ThreadStates.ThreadState.GrowSwap` | Example_3_std_boost/libs/cppcoro/lib/static_thread_pool.cpp:175-178 | the ring and its mask are replaced together |
| `ThreadStates.ThreadState.BeginPop` | Example_3_std_boost/libs/cppcoro/lib/static_thread_pool.cpp:181-190 | the emptiness check on words: empty iff the head is not ahead of the tail |
| `ThreadStates.ThreadState.PopLoadTail` | Example_3_std_boost/libs/cppcoro/lib/static_thread_pool.cpp:204-222 | both looks at the tail after the speculative decrement |
| `ThreadStates.ThreadState.PopRestoreHead` | Example_3_std_boost/libs/cppcoro/lib/static_thread_pool.cpp:222-229 | the decrement is taken back when a thief came first |
| `ThreadStates.ThreadState.PopTake` | Example_3_std_boost/libs/cppcoro/lib/static_thread_pool.cpp:232-234 | the popped operation is the newest of the deque |
| `ThreadStates.ThreadState.StealLoadHead` | Example_3_std_boost/libs/cppcoro/lib/static_thread_pool.cpp:250-271 | both looks at the head, before and after the speculative increment |
| `ThreadStates.ThreadState.StealStoreTail` | Example_3_std_boost/libs/cppcoro/lib/static_thread_pool.cpp:268-283 | the increment, or taking it back |
| `ThreadStates.ThreadState.StealTake` | Example_3_std_boost/libs/cppcoro/lib/static_thread_pool.cpp:271-276 | the stolen operation is the oldest of the deque |
| `ThreadStates.ThreadState.TryLocalPop` | Example_3_std_boost/libs/cppcoro/lib/static_thread_pool.cpp:181-234 | a whole call, whatever thieves do between its steps: null iff the deque looks empty at its start, else the newest operation, or the lock has to be waited for, which takes an interruption |
| `ThreadStates.ThreadState.FinishPop` | Example_3_std_boost/libs/cppcoro/lib/static_thread_pool.cpp:216-233 | the rest under the lock, whatever thieves do: null iff nothing is left, else the newest operation |
| `ThreadStates.ThreadState.TryLocalEnqueue` | Example_3_std_boost/libs/cppcoro/lib/static_thread_pool.cpp:100-179 | a whole call, whatever thieves do between its steps, growth included: the operation is then the newest; it succeeds if fewer operations than the mask are queued, and otherwise fails only without memory or when the lock is taken |
| `ThreadStates.ThreadState.TrySteal` | Example_3_std_boost/libs/cppcoro/lib/static_thread_pool.cpp:248-284 | a whole call from when the lock is held, whatever the owner and other thieves do: it returns what this thief has then stolen; alone it takes the oldest operation iff the head is ahead of the tail |
| `GlobalQueue.StepKeepsInv` | Example_3_std_boost/libs/cppcoro/lib/static_thread_pool.cpp:527-538 | every step of every pushing and taking thread keeps the queue order |
| `GlobalQueue.FirstInFirstOut` | Example_3_std_boost/libs/cppcoro/lib/static_thread_pool.cpp:644-678 | operations leave the global queue in the order in which they were pushed, each once, and none is lost |
| `GlobalQueue.EmptyMeansEmpty` | Example_3_std_boost/libs/cppcoro/lib/static_thread_pool.cpp:648-665 | an empty-handed `try_global_dequeue` found nothing queued at all at its load of the tail |
| `GlobalQueue.QueueStep` | Example_3_std_boost/libs/cppcoro/lib/static_thread_pool.cpp:527-678 | a push adds to the end of the queue, a take removes its first operation, and no other step changes it |
| `GlobalQueue.OthersOnlyPush` | Example_3_std_boost/libs/cppcoro/lib/static_thread_pool.cpp:644-678 | while one thread holds the mutex the others can only add to the end |
| `RemoteQueues.RemoteQueue.LoadForEnqueue` | Example_3_std_boost/libs/cppcoro/lib/static_thread_pool.cpp:529-529 | the load of the tail pointer |
| `RemoteQueues.RemoteQueue.TryPush` | Example_3_std_boost/libs/cppcoro/lib/static_thread_pool.cpp:530-537 | the linked stack grows by the operation iff the compare-and-swap succeeds |
| `RemoteQueues.RemoteQueue.LoadQueueHead` | Example_3_std_boost/libs/cppcoro/lib/static_thread_pool.cpp:648-649 | the head pointer, if not null, is the list of the oldest operations |
| `RemoteQueues.RemoteQueue.LoadQueueTail` | Example_3_std_boost/libs/cppcoro/lib/static_thread_pool.cpp:655-658 | nothing is queued when the tail pointer is null as well |
| `RemoteQueues.RemoteQueue.ExchangeTail` | Example_3_std_boost/libs/cppcoro/lib/static_thread_pool.cpp:661-672 | the linked stack is taken and reversed into arrival order |
| `RemoteQueues.RemoteQueue.TakeHead` | Example_3_std_boost/libs/cppcoro/lib/static_thread_pool.cpp:675-677 | the first of the list is returned and the rest stays |
| `RemoteQueues.RemoteQueue.RemoteEnqueue` | Example_3_std_boost/libs/cppcoro/lib/static_thread_pool.cpp:527-538 | a whole call, whatever others do between its steps: at its return the operation is the last of the queue |
| `RemoteQueues.RemoteQueue.TryGlobalDequeue` | Example_3_std_boost/libs/cppcoro/lib/static_thread_pool.cpp:644-678 | a whole call from when the mutex is held, whatever others push meanwhile: it takes the operation that was first at its start, and comes back empty-handed only when there was none |
| `AutoResetEvent.StepKeepsInv` | Example_3_std_boost/libs/cppcoro/lib/async_auto_reset_event.cpp:52-284 | every atomic step of every `set`, `reset` and `co_await` keeps the invariant |
| `AutoResetEvent.StateWordIsALock` | Example_3_std_boost/libs/cppcoro/lib/async_auto_reset_event.cpp:74-100 | some thread owns the wait list iff both counts are positive, never two; the set count never exceeds the waiter count by more than one, and a round never exceeds either |
| `AutoResetEvent.RoundIsCovered` | Example_3_std_boost/libs/cppcoro/lib/async_auto_reset_event.cpp:179-199 | what the end of a round subtracts is in both counts, so neither half of the word borrows |
| `AutoResetEvent.WaitersLeaveInOrder` | Example_3_std_boost/libs/cppcoro/lib/async_auto_reset_event.cpp:134-177 | waiters are taken in the order in which they were pushed, and the owner never finds both lists empty |
| `AutoResetEvent.EveryWaiterContinuesOnce` | Example_3_std_boost/libs/cppcoro/lib/async_auto_reset_event.cpp:206-284 | no waiter continues twice; at rest exactly those taken have continued, no set is pending while somebody waits, and effective sets equal acquisitions, effective resets and what is still set |
| `AutoResetEvent.CallsTakeEffect` | Example_3_std_boost/libs/cppcoro/lib/async_auto_reset_event.cpp:74-118 | a call of `set` or `reset` ends in a step that adds or takes one set, or in one that finds the event set, or not set, already |
| `AutoResetEvent.EveryCallHasItsOutcome` | Example_3_std_boost/libs/cppcoro/lib/async_auto_reset_event.cpp:74-118 | in every run each call of `set` or `reset` that is over has one of these outcomes, and the effective ones counted are exactly those that took effect |
| `AutoResetEvent.OwnerFindsWaiters` | Example_3_std_boost/libs/cppcoro/lib/async_auto_reset_event.cpp:134-167 | the two asserts on the wait list hold |
| `AutoResetEvent.ReferenceIsHeld` | Example_3_std_boost/libs/cppcoro/lib/async_auto_reset_event.cpp:206-224 | whoever drops a reference to a waiter still holds one |
| `AsyncAutoResetEvents.PackIsInjective` | Example_3_std_boost/libs/cppcoro/lib/async_auto_reset_event.cpp:17-35 | the packed word determines both counts |
| `AsyncAutoResetEvents.PackSubtracts` | Example_3_std_boost/libs/cppcoro/lib/async_auto_reset_event.cpp:179-199 | subtracting the same number from both halves is one subtraction of words |
| `AsyncAutoResetEvents.Event.LoadState` | Example_3_std_boost/libs/cppcoro/lib/async_auto_reset_event.cpp:53-82 | the loaded word and the test on its halves |
| `AsyncAutoResetEvents.Event.SetCompareExchange` | Example_3_std_boost/libs/cppcoro/lib/async_auto_reset_event.cpp:74-100 | the set count goes up by one iff the compare-and-swap meets the value expected; a set that meets waiters makes the caller the owner, with the number of waiters to resume |
| `AsyncAutoResetEvents.Event.ResetCompareExchange` | Example_3_std_boost/libs/cppcoro/lib/async_auto_reset_event.cpp:102-118 | a set event loses one off its set count iff the compare-and-swap meets the value expected |
| `AsyncAutoResetEvents.Event.TryAcquire` | Example_3_std_boost/libs/cppcoro/lib/async_auto_reset_event.cpp:52-72 | a set event is acquired by one compare-and-swap |
| `AsyncAutoResetEvents.Event.LoadNewWaiters` | Example_3_std_boost/libs/cppcoro/lib/async_auto_reset_event.cpp:249-249 | the value the first compare-and-swap expects |
| `AsyncAutoResetEvents.Event.TryPushWaiter` | Example_3_std_boost/libs/cppcoro/lib/async_auto_reset_event.cpp:250-257 | one turn of the loop: the link is written, and the linked stack grows by the operation, with two references, iff the compare-and-swap succeeds |
| `AsyncAutoResetEvents.Event.CountWaiter` | Example_3_std_boost/libs/cppcoro/lib/async_auto_reset_event.cpp:259-273 | counting the waiter may make its thread the owner |
| `AsyncAutoResetEvents.Event.RefillWaiters` | Example_3_std_boost/libs/cppcoro/lib/async_auto_reset_event.cpp:136-167 | the linked stack, which is not empty, is taken and reversed; the lists that other threads are about to resume keep their links |
| `AsyncAutoResetEvents.Event.TakeWaiter` | Example_3_std_boost/libs/cppcoro/lib/async_auto_reset_event.cpp:169-176 | the first waiter is unlinked and appended to the list of its thread, and to no other |
| `AsyncAutoResetEvents.Event.SubtractRound` | Example_3_std_boost/libs/cppcoro/lib/async_auto_reset_event.cpp:179-199 | both halves of the word go down by the round, and what is then resumable is the next round |
| `AsyncAutoResetEvents.Event.ResumeOne` | Example_3_std_boost/libs/cppcoro/lib/async_auto_reset_event.cpp:206-224 | the link is read before the reference is dropped; the coroutine is resumed iff it was the last one |
| `AsyncAutoResetEvents.Event.DropOwnReference` | Example_3_std_boost/libs/cppcoro/lib/async_auto_reset_event.cpp:275-284 | the waiter does not suspend iff it drops the last reference, which it does iff it was served |
| `AsyncAutoResetEvents.Event.Set` | Example_3_std_boost/libs/cppcoro/lib/async_auto_reset_event.cpp:74-100 | a whole call, whatever others do between its steps: it has set the event or found it set; alone, on an event that is not set, it counts one set and serves the longest waiter if nobody else was at it |
| `AsyncAutoResetEvents.Event.Reset` | Example_3_std_boost/libs/cppcoro/lib/async_auto_reset_event.cpp:102-118 | a whole call, whatever others do: it has reset the event or found it not set; alone it takes one set off a set event |
| `AsyncAutoResetEvents.Event.CoAwait` | Example_3_std_boost/libs/cppcoro/lib/async_auto_reset_event.cpp:52-72 | a whole call, whatever others do: the event is acquired or an operation is needed; alone it acquires a set event |
| `AsyncAutoResetEvents.Event.ResumeWaiters` | Example_3_std_boost/libs/cppcoro/lib/async_auto_reset_event.cpp:120-225 | a whole call, whatever others do: rounds of dequeues until nothing is resumable, then every dequeued waiter; its asserts hold; alone it serves the longest waiters, as many as both counts allow |
| `AsyncAutoResetEvents.Event.AwaitSuspend` | Example_3_std_boost/libs/cppcoro/lib/async_auto_reset_event.cpp:243-285 | a whole call, whatever others do: the coroutine suspends iff it has not been continued; alone iff it did not meet a set event with nobody in line |
| `AsyncAutoResetEvents.MoveToBatch` | Example_3_std_boost/libs/cppcoro/lib/async_auto_reset_event.cpp:169-176 | relinking one waiter disturbs neither the wait lists nor the list of any other thread |
| `AsyncAutoResetEvents.TakenIsApart` | Example_3_std_boost/libs/cppcoro/lib/async_auto_reset_event.cpp:134-177 | the first waiter is in no other list, and no waiter is in two of the lists that threads are about to resume |
| `IntrusiveLists.ReverseOnto` | Example_3_std_boost/libs/cppcoro/lib/async_mutex.cpp:67-76 | the loop that relinks a stack yields the reversed list in front of the old one; no waiter is dropped |
| `IntrusiveLists.SplitForPublish` | Example_3_std_boost/libs/cppcoro/include/cppcoro/sequence_barrier.hpp:328-356 | the loop with two tail pointers yields the waiters still ahead and the others, each in order |
| `IntrusiveLists.SplitForAdd` | Example_3_std_boost/libs/cppcoro/include/cppcoro/sequence_barrier.hpp:419-452 | the same with the test on distances; the target computed is the earliest of those put back |
| `IntrusiveLists.JoinIsLinked` | Example_3_std_boost/libs/cppcoro/include/cppcoro/sequence_barrier.hpp:358-369 | a list whose last link leads to the old head is linked in front of it |
| `IntrusiveLists.QuestionsAgreeIff` | Example_3_std_boost/libs/cppcoro/include/cppcoro/sequence_barrier.hpp:339-433 | the two tests of `publish` and `add_awaiter` agree iff target and published number are not exactly half the range apart |
| `Barrier.StepKeepsInv` | Example_3_std_boost/libs/cppcoro/include/cppcoro/sequence_barrier.hpp:159-467 | every atomic step of the producer and of any waiter keeps the invariant |
| `Barrier.NoWakeUpIsLost` | Example_3_std_boost/libs/cppcoro/include/cppcoro/sequence_barrier.hpp:308-467 | when no call is in progress every queued waiter has a target strictly after the published number, and every other waiter has continued |
| `Barrier.EveryWaiterContinuesOnce` | Example_3_std_boost/libs/cppcoro/include/cppcoro/sequence_barrier.hpp:159-187 | a waiter is in one list at most, continues at most once, is in no list then, and sees a published number that does not precede its target |
| `SequenceBarriers.NoWakeUpIsLostOnWords` | Example_3_std_boost/libs/cppcoro/include/cppcoro/sequence_barrier.hpp:308-467 | the same of the words the program compares, in runs where they stay within half their range: at rest the queued targets come after the published word in the wrap-around order |
| `SequenceBarriers.WordsDoNotPrecedeTargets` | Example_3_std_boost/libs/cppcoro/include/cppcoro/sequence_barrier.hpp:159-187 | in such runs a waiter continues once, with a word that does not precede its target |
| `SequenceBarriers.SequenceBarrier.StorePublished` | Example_3_std_boost/libs/cppcoro/include/cppcoro/sequence_barrier.hpp:310-310 | the store of the published word |
| `SequenceBarriers.SequenceBarrier.LoadAwaiters` | Example_3_std_boost/libs/cppcoro/include/cppcoro/sequence_barrier.hpp:313-317 | the cheap check for waiters: empty iff the shared list is |
| `SequenceBarriers.SequenceBarrier.ExchangeForPublish` | Example_3_std_boost/libs/cppcoro/include/cppcoro/sequence_barrier.hpp:322-356 | the linked list is taken and split as the machine does, within half the range |
| `SequenceBarriers.SequenceBarrier.PushForPublish` | Example_3_std_boost/libs/cppcoro/include/cppcoro/sequence_barrier.hpp:360-368 | one turn of the loop: the waiters to requeue are linked in front of the shared list iff the compare-and-swap succeeds; those to resume are not touched |
| `SequenceBarriers.SequenceBarrier.ResumeForPublish` | Example_3_std_boost/libs/cppcoro/include/cppcoro/sequence_barrier.hpp:371-377 | one waiter gets the published number, then its half of the hand-shake |
| `SequenceBarriers.SequenceBarrier.Await` | Example_3_std_boost/libs/cppcoro/include/cppcoro/sequence_barrier.hpp:142-162 | the new operation, ready at once iff its target is already published |
| `SequenceBarriers.SequenceBarrier.LoadHeadForAdd` | Example_3_std_boost/libs/cppcoro/include/cppcoro/sequence_barrier.hpp:395-395 | the value the first compare-and-swap expects |
| `SequenceBarriers.SequenceBarrier.PushForAdd` | Example_3_std_boost/libs/cppcoro/include/cppcoro/sequence_barrier.hpp:396-403 | one turn of the loop: the last link is set, and the operation, or those put back, are pushed iff the compare-and-swap succeeds |
| `SequenceBarriers.SequenceBarrier.LoadForAdd` | Example_3_std_boost/libs/cppcoro/include/cppcoro/sequence_barrier.hpp:412-417 | the look at the published number after the push |
| `SequenceBarriers.SequenceBarrier.ExchangeForAdd` | Example_3_std_boost/libs/cppcoro/include/cppcoro/sequence_barrier.hpp:419-452 | the list is taken again and split; the word computed is the earliest target left |
| `SequenceBarriers.SequenceBarrier.ResumeForAdd` | Example_3_std_boost/libs/cppcoro/include/cppcoro/sequence_barrier.hpp:459-466 | one waiter is resumed by another thread than the producer |
| `SequenceBarriers.SequenceBarrier.ExchangeReady` | Example_3_std_boost/libs/cppcoro/include/cppcoro/sequence_barrier.hpp:164-169 | `await_suspend` suspends iff the waiter was not resumed meanwhile |
| `SequenceBarriers.SequenceBarrier.PublishSequence` | Example_3_std_boost/libs/cppcoro/include/cppcoro/sequence_barrier.hpp:308-378 | a whole call, whatever others do between its steps: the number is published and everybody taken is put back or resumed; alone it resumes exactly those whose target is reached, with that number, and keeps the others in order |
| `SequenceBarriers.SequenceBarrier.AddAwaiter` | Example_3_std_boost/libs/cppcoro/include/cppcoro/sequence_barrier.hpp:381-467 | a whole call, whatever others do: rounds of pushing, looking, taking and splitting, until nobody is left to put back, then everybody due is resumed |
| `SequenceBarriers.SequenceBarrier.AwaitSuspend` | Example_3_std_boost/libs/cppcoro/include/cppcoro/sequence_barrier.hpp:164-169 | a whole call, whatever others do: the waiter has left, and suspends iff nobody has resumed it |
| `SequenceBarriers.ComparisonsAreTrue` | Example_3_std_boost/libs/cppcoro/include/cppcoro/sequence_traits.hpp:21-29 | within half the range both comparisons of words are the comparison of the numbers |
| `SequenceBarriers.SplitAgrees` | Example_3_std_boost/libs/cppcoro/include/cppcoro/sequence_barrier.hpp:337-352 | splitting the linked operations by words is splitting the waiters by numbers |
| `Cancellation.StepKeepsInv` | Example_3_std_boost/libs/cppcoro/lib/cancellation_state.cpp:172-617 | every atomic step of registrars, destructors and the canceller keeps the invariant |
| `Cancellation.EveryCallbackRunsOnce` | Example_3_std_boost/libs/cppcoro/lib/cancellation_state.cpp:408-566 | no callback runs twice or before a request; when `request_cancellation` and the constructor have returned, every registration not removed has run exactly once |
| `Cancellation.NoCallbackAfterDeregister` | Example_3_std_boost/libs/cppcoro/lib/cancellation_state.cpp:568-617 | after a destructor has returned on another thread than the notifying one the callback is not running and never will; on any thread it does not start again |
| `Cancellation.WaitIsNotForever` | Example_3_std_boost/libs/cppcoro/lib/cancellation_state.cpp:600-616 | whoever waits for the notification to complete waits for a canceller that will complete it, and is not the notifying thread itself |
| `Cancellation.InertIsHarmless` | Example_3_std_boost/libs/cppcoro/lib/cancellation_registration.cpp:21-41 | a registration refused because nothing can cancel is never needed |
| `Cancellation.ScanFrom` | Example_3_std_boost/libs/cppcoro/lib/cancellation_state.cpp:439-485 | the scan of lists, chunks and entries never passes a slot that holds a registration |
| `Cancellation.ChunksAreMaskable` | Example_3_std_boost/libs/cppcoro/lib/cancellation_state.cpp:295-302 | every chunk has a power of two of slots, from 16 to 1024 |
| `CancellationStates.EverySlotIsVisitedOnce` | Example_3_std_boost/libs/cppcoro/lib/cancellation_state.cpp:252-261 | for any free count the masked search visits every slot of a chunk exactly once |
| `CancellationStates.PackedBits` | Example_3_std_boost/libs/cppcoro/lib/cancellation_state.cpp:393-406 | flags and cancellability can be read off the packed word whatever the reference counts |
| `CancellationStates.CancellationState.FetchOrRequested` | Example_3_std_boost/libs/cppcoro/lib/cancellation_state.cpp:410-415 | only the first caller goes on |
| `CancellationStates.CancellationState.LoadRegistrations` | Example_3_std_boost/libs/cppcoro/lib/cancellation_state.cpp:426-427 | without registrations nothing is scanned and the complete flag stays clear |
| `CancellationStates.CancellationState.ScanList` | Example_3_std_boost/libs/cppcoro/lib/cancellation_state.cpp:439-449 | the load of one list pointer |
| `CancellationStates.CancellationState.ScanEntry` | Example_3_std_boost/libs/cppcoro/lib/cancellation_state.cpp:452-461 | the look at one entry, or the end of the chunk |
| `CancellationStates.CancellationState.ExchangeEntry` | Example_3_std_boost/libs/cppcoro/lib/cancellation_state.cpp:467-472 | the registration is out of its slot before its callback runs |
| `CancellationStates.CancellationState.FetchAddComplete` | Example_3_std_boost/libs/cppcoro/lib/cancellation_state.cpp:487-487 | the complete flag is set by an addition |
| `CancellationStates.CancellationState.BeginRegister` | Example_3_std_boost/libs/cppcoro/lib/cancellation_registration.cpp:23-40 | whether the token can be cancelled at all |
| `CancellationStates.CancellationState.LoadRequested` | Example_3_std_boost/libs/cppcoro/lib/cancellation_state.cpp:494-533 | both looks at the requested flag |
| `CancellationStates.CancellationState.PublishState` | Example_3_std_boost/libs/cppcoro/lib/cancellation_state.cpp:499-521 | the compare-and-swap that publishes the lists |
| `CancellationStates.CancellationState.PublishList` | Example_3_std_boost/libs/cppcoro/lib/cancellation_state.cpp:182-204 | a new list has its first slot claimed before it is seen |
| `CancellationStates.CancellationState.ClaimEntry` | Example_3_std_boost/libs/cppcoro/lib/cancellation_state.cpp:272-282 | the compare-and-swap on a slot |
| `CancellationStates.CancellationState.AppendChunk` | Example_3_std_boost/libs/cppcoro/lib/cancellation_state.cpp:295-324 | a chunk of the next size, first slot claimed, joins the chain unless another came first |
| `CancellationStates.CancellationState.RemoveEntry` | Example_3_std_boost/libs/cppcoro/lib/cancellation_state.cpp:542-584 | a registration takes itself out iff it is still in its slot |
| `CancellationStates.CancellationState.PollComplete` | Example_3_std_boost/libs/cppcoro/lib/cancellation_state.cpp:611-614 | one turn of the waiting loop |
| `CancellationStates.CancellationState.SearchChunk` | Example_3_std_boost/libs/cppcoro/lib/cancellation_state.cpp:237-289 | a whole search, whatever others do between its steps: when it claims nothing it has found every slot taken; when nobody interferes it claims a slot iff one is free; a full-looking chunk is searched every so often |
| `CancellationStates.CancellationState.RequestCancellation` | Example_3_std_boost/libs/cppcoro/lib/cancellation_state.cpp:408-489 | a whole call, whatever others do: it is the first iff nobody had requested before; the first one returns when the notification is complete or nothing was registered, and then the callback of everybody still registered has run once |
| `CancellationStates.CancellationState.FinishRegister` | Example_3_std_boost/libs/cppcoro/lib/cancellation_state.cpp:525-565 | the end of a registration, whatever others do: it stays, or leaves its slot and its callback is run once by its own thread; alone the latter iff cancellation was requested and the canceller has not taken it |
| `CancellationStates.CancellationState.Deregister` | Example_3_std_boost/libs/cppcoro/lib/cancellation_state.cpp:568-617 | the destructor up to its wait, whatever others do: removed iff still in its slot, and then the callback has not run; else it has been taken, and the notifying thread does not wait |
| `Ring.StepKeepsInv` | Example_3_std_boost/libs/cppcoro/include/cppcoro/multi_producer_sequencer.hpp:240-598 | every step of producers and consumers keeps the invariant |
| `Ring.AdmittedNumbersHaveOwnSlots` | Example_3_std_boost/libs/cppcoro/include/cppcoro/multi_producer_sequencer.hpp:183-190 | two admitted, unconsumed numbers never use the same slot |
| `Ring.StoreReplacesOneRingBefore` | Example_3_std_boost/libs/cppcoro/include/cppcoro/multi_producer_sequencer.hpp:569-575 | a publish replaces exactly the number one ring before, which every consumer has passed, and hides no other |
| `Ring.NoNumberIsLost` | Example_3_std_boost/libs/cppcoro/include/cppcoro/multi_producer_sequencer.hpp:183-246 | every claimed number is consumed, in its slot, or pending with the one producer that owns it |
| `Ring.BatchIsVisibleAtOnce` | Example_3_std_boost/libs/cppcoro/include/cppcoro/multi_producer_sequencer.hpp:578-598 | of a batch nothing is visible to an ordered reader before its first number is stored, and then all of it is |
| `Ring.ReadingIsExact` | Example_3_std_boost/libs/cppcoro/include/cppcoro/multi_producer_sequencer.hpp:519-529 | whatever others do between its loads, `last_published_after` returns the exact end of the run at its last load and takes at most one load more than there are slots |
| `Ring.PublishedStays` | Example_3_std_boost/libs/cppcoro/include/cppcoro/multi_producer_sequencer.hpp:519-529 | a published number stays in its slot until the consumers have passed it |
| `MultiProducerSequencers.FillInitial` | Example_3_std_boost/libs/cppcoro/include/cppcoro/multi_producer_sequencer.hpp:511-515 | the loop across wrap-around leaves in every slot the last number up to the initial one |
| `MultiProducerSequencers.MultiProducerSequencer.FetchAddClaim` | Example_3_std_boost/libs/cppcoro/include/cppcoro/multi_producer_sequencer.hpp:229-247 | one fetch-and-add claims the next numbers, as many as asked for but no more than there are slots |
| `MultiProducerSequencers.MultiProducerSequencer.TryAdmit` | Example_3_std_boost/libs/cppcoro/include/cppcoro/multi_producer_sequencer.hpp:183-195 | the comparison of words admits a claim iff it is at most a ring ahead of the consumers |
| `MultiProducerSequencers.MultiProducerSequencer.PublishOne` | Example_3_std_boost/libs/cppcoro/include/cppcoro/multi_producer_sequencer.hpp:569-575 | the masked store of one number |
| `MultiProducerSequencers.MultiProducerSequencer.PublishRange` | Example_3_std_boost/libs/cppcoro/include/cppcoro/multi_producer_sequencer.hpp:578-598 | the loop, whatever others do between two stores: the first number is stored last, and then all of the range is readable |
| `Ring.BatchCompletes` | Example_3_std_boost/libs/cppcoro/include/cppcoro/multi_producer_sequencer.hpp:593-594 | the last store of a batch makes all of it readable |
| `MultiProducerSequencers.MultiProducerSequencer.LastPublishedAfter` | Example_3_std_boost/libs/cppcoro/include/cppcoro/multi_producer_sequencer.hpp:519-529 | the loop, whatever others publish between two loads: the exact end of the published run at the last load, at most a ring further |
| `SequenceRanges.RangeOperations` | Example_3_std_boost/libs/cppcoro/include/cppcoro/sequence_range.hpp:63-97 | front, back, size, emptiness, first, skip and indexing of words are those of the numbers, across wrap-around |
| `SingleProducerSequencers.ClaimsAreSafe` | Example_3_std_boost/libs/cppcoro/include/cppcoro/single_producer_sequencer.hpp:148-217 | claimed ranges are non-empty unless nothing was asked for, contiguous, disjoint, and never extend more than the buffer size past the consumers; one that gets less than it asked for gets all up to there |
| `SingleProducerSequencers.SingleProducerSequencer.AwaitReady` | Example_3_std_boost/libs/cppcoro/include/cppcoro/single_producer_sequencer.hpp:151-161 | the target and whether the consumers have reached it |
| `SingleProducerSequencers.SingleProducerSequencer.ResumeClaimOne` | Example_3_std_boost/libs/cppcoro/include/cppcoro/single_producer_sequencer.hpp:168-171 | the next number |
| `SingleProducerSequencers.SingleProducerSequencer.ResumeClaimUpTo` | Example_3_std_boost/libs/cppcoro/include/cppcoro/single_producer_sequencer.hpp:207-217 | the minimum of what is asked for and what is free, computed on words as on numbers |
| `SingleProducerSequencers.SingleProducerSequencer.PublishUpTo` | Example_3_std_boost/libs/cppcoro/include/cppcoro/single_producer_sequencer.hpp:84-87 | publishing a range is publishing its last number |
| `RecursiveGenerators.Promise.Resume` | Example_3_std_boost/libs/cppcoro/include/cppcoro/recursive_generator.hpp:59-121 | the coroutine stops at the first value of its flattened rest, or is complete when there is none |
| `RecursiveGenerators.Promise.YieldGenerator` | Example_3_std_boost/libs/cppcoro/include/cppcoro/recursive_generator.hpp:76-121 | a nested generator becomes the leaf and runs at once; the parent is suspended iff it yields anything |
| `RecursiveGenerators.Promise.Pull` | Example_3_std_boost/libs/cppcoro/include/cppcoro/recursive_generator.hpp:152-164 | afterwards the root is complete or the leaf is suspended at the next value of the flattened sequence, and parents lead from the leaf to the root |
| `RecursiveGenerators.Promise.Value` | Example_3_std_boost/libs/cppcoro/include/cppcoro/recursive_generator.hpp:145-150 | the value of the leaf |
| `RecursiveGenerators.RecursiveGenerator.Begin` | Example_3_std_boost/libs/cppcoro/include/cppcoro/recursive_generator.hpp:293-307 | the iterator stands at the first of all values in order |
| `RecursiveGenerators.Iterator.Increment` | Example_3_std_boost/libs/cppcoro/include/cppcoro/recursive_generator.hpp:255-269 | the iterator moves on by one value, or to the end |
| `RecursiveGenerators.Iterator.Current` | Example_3_std_boost/libs/cppcoro/include/cppcoro/recursive_generator.hpp:276-280 | the value the iterator stands at |
| `RecursiveGenerators.Collect` | Example_3_std_boost/libs/cppcoro/include/cppcoro/recursive_generator.hpp:226-312 | iterating from begin to end gives exactly the in-order flattening |
| `RecursiveGenerators.RemainingBelow` | Example_3_std_boost/libs/cppcoro/include/cppcoro/recursive_generator.hpp:152-164 | the lower part of a chain of active generators yields before the upper part |
| `AsyncGenerator.StepKeepsInv` | Example_3_std_boost/libs/cppcoro/include/cppcoro/async_generator.hpp:501-789 | every step of producer and consumer keeps the table of states that occur together |
| `AsyncGenerator.HandOffIsSafe` | Example_3_std_boost/libs/cppcoro/include/cppcoro/async_generator.hpp:501-789 | the asserts hold, nothing is resumed unless suspended or touched after destruction, and the consumer sees the values once and in order |
| `AsyncGenerator.CancelledFrameIsDestroyedOnce` | Example_3_std_boost/libs/cppcoro/include/cppcoro/async_generator.hpp:501-514 | a cancelled producer is destroyed exactly once, within a bounded number of its own steps |
| `AsyncGenerator.WaitingConsumerIsServed` | Example_3_std_boost/libs/cppcoro/include/cppcoro/async_generator.hpp:743-789 | while the consumer waits the producer is never stuck |
| `AsyncGeneratorPromises.Promise.YieldValue` | Example_3_std_boost/libs/cppcoro/include/cppcoro/async_generator.hpp:813-817 | the value is set before the state is looked at |
| `AsyncGeneratorPromises.Promise.FinalSuspend` | Example_3_std_boost/libs/cppcoro/include/cppcoro/async_generator.hpp:591-595 | the end is a null value |
| `AsyncGeneratorPromises.Promise.LoadInYield` | Example_3_std_boost/libs/cppcoro/include/cppcoro/async_generator.hpp:599-622 | the loads of the producer and the asserts on them |
| `AsyncGeneratorPromises.Promise.StoreProducerActive` | Example_3_std_boost/libs/cppcoro/include/cppcoro/async_generator.hpp:603-607 | the state before the consumer is resumed |
| `AsyncGeneratorPromises.Promise.TrySuspendProducer` | Example_3_std_boost/libs/cppcoro/include/cppcoro/async_generator.hpp:627-698 | the producer is suspended iff its compare-and-swap succeeds; else the consumer has asked again or is gone |
| `AsyncGeneratorPromises.Promise.LoadInAdvance` | Example_3_std_boost/libs/cppcoro/include/cppcoro/async_generator.hpp:718-719 | what the consumer finds when it asks |
| `AsyncGeneratorPromises.Promise.StoreConsumerActive` | Example_3_std_boost/libs/cppcoro/include/cppcoro/async_generator.hpp:721-723 | the state before the producer is resumed |
| `AsyncGeneratorPromises.Promise.ReloadInAdvance` | Example_3_std_boost/libs/cppcoro/include/cppcoro/async_generator.hpp:727-733 | what the consumer finds after resuming the producer |
| `AsyncGeneratorPromises.Promise.SetConsumer` | Example_3_std_boost/libs/cppcoro/include/cppcoro/async_generator.hpp:743-748 | the consumer is registered before it tries to suspend |
| `AsyncGeneratorPromises.Promise.TrySuspendConsumer` | Example_3_std_boost/libs/cppcoro/include/cppcoro/async_generator.hpp:748-789 | the consumer is suspended iff its compare-and-swap succeeds; else the producer has suspended first |
| `AsyncGeneratorPromises.Promise.ReadValue` | Example_3_std_boost/libs/cppcoro/include/cppcoro/async_generator.hpp:923-934 | the next value in order, or the end after all of them |
| `AsyncGeneratorPromises.Promise.RequestCancellation` | Example_3_std_boost/libs/cppcoro/include/cppcoro/async_generator.hpp:501-514 | the asserts hold, and the caller has to destroy the producer iff it is suspended |
| `AsyncGeneratorPromises.Promise.ResumeConsumer` | Example_3_std_boost/libs/cppcoro/include/cppcoro/async_generator.hpp:615-615 | the consumer resumed was suspended |
| `AsyncGeneratorPromises.Promise.ResumeProducer` | Example_3_std_boost/libs/cppcoro/include/cppcoro/async_generator.hpp:725-725 | the producer resumed was suspended, and not at its end |
| `AsyncGeneratorPromises.Promise.AwaitReady` | Example_3_std_boost/libs/cppcoro/include/cppcoro/async_generator.hpp:577-580 | which way the yield operation takes |
| `AsyncGeneratorPromises.Promise.CoYield` | Example_3_std_boost/libs/cppcoro/include/cppcoro/async_generator.hpp:597-699 | a whole yield, whatever the consumer does between its steps: the producer is suspended, goes on once the value was seen and another asked for, or is destroyed with the generator; the asserts hold |
| `AsyncGeneratorPromises.Promise.CoReturn` | Example_3_std_boost/libs/cppcoro/include/cppcoro/async_generator.hpp:591-595 | the whole end of the coroutine: it is suspended or destroyed and never goes on |
| `AsyncGeneratorPromises.Promise.CoAdvance` | Example_3_std_boost/libs/cppcoro/include/cppcoro/async_generator.hpp:712-789 | a whole advance, whatever the producer does: the consumer is suspended, or has read the next value, the latest yielded, or has found the end after all of them |
| `Mutex.StepKeepsInv` | Example_3_std_boost/libs/cppcoro/lib/async_mutex.cpp:22-122 | every step of every coroutine keeps the invariant |
| `Mutex.AtMostOneOwner` | Example_3_std_boost/libs/cppcoro/lib/async_mutex.cpp:22-31 | at most one owner, and the state is `not_locked` iff there is none |
| `Mutex.WaitersAreServedInOrder` | Example_3_std_boost/libs/cppcoro/lib/async_mutex.cpp:43-86 | everybody queued has got the mutex in order, or waits in the known waiters followed by the reversed stack |
| `Mutex.NobodyIsOvertaken` | Example_3_std_boost/libs/cppcoro/lib/async_mutex.cpp:43-122 | the mutex passes to the longest waiter, and nobody who did not queue gets it while somebody waits |
| `Mutex.TryLockTakesFree` | Example_3_std_boost/libs/cppcoro/lib/async_mutex.cpp:22-31 | `try_lock` gets the mutex iff it is free |
| `Mutex.LockTakesFreeOrQueues` | Example_3_std_boost/libs/cppcoro/lib/async_mutex.cpp:88-122 | the compare-and-swap of a lock operation takes a free mutex, and queues behind everybody else when it is not free |
| `Mutex.UnlockKeepsQueue` | Example_3_std_boost/libs/cppcoro/lib/async_mutex.cpp:43-76 | up to the hand-over `unlock` keeps the queue as it is, and frees the mutex iff nobody waits |
| `Mutex.OthersOnlyJoin` | Example_3_std_boost/libs/cppcoro/lib/async_mutex.cpp:43-122 | while one coroutine owns the mutex the others can only join the end of the queue |
| `AsyncMutexes.AsyncMutex.TryLock` | Example_3_std_boost/libs/cppcoro/lib/async_mutex.cpp:22-31 | locks iff the mutex is free |
| `AsyncMutexes.AsyncMutex.LoadState` | Example_3_std_boost/libs/cppcoro/lib/async_mutex.cpp:92-92 | the loaded word |
| `AsyncMutexes.AsyncMutex.TryLockOrPush` | Example_3_std_boost/libs/cppcoro/lib/async_mutex.cpp:93-121 | one turn of the loop: the free mutex is acquired, or the operation is the last of the queue, iff the compare-and-swap meets the value expected |
| `AsyncMutexes.AsyncMutex.BeginUnlock` | Example_3_std_boost/libs/cppcoro/lib/async_mutex.cpp:43-48 | the waiters already known |
| `AsyncMutexes.AsyncMutex.TryRelease` | Example_3_std_boost/libs/cppcoro/lib/async_mutex.cpp:50-59 | released iff there is no new waiter |
| `AsyncMutexes.AsyncMutex.TakeNewWaiters` | Example_3_std_boost/libs/cppcoro/lib/async_mutex.cpp:61-76 | the new waiters are taken and reversed; the assert holds |
| `AsyncMutexes.AsyncMutex.HandOver` | Example_3_std_boost/libs/cppcoro/lib/async_mutex.cpp:79-85 | the first waiter becomes the owner and the rest is kept |
| `AsyncMutexes.AsyncMutex.AwaitSuspend` | Example_3_std_boost/libs/cppcoro/lib/async_mutex.cpp:88-122 | a whole call, whatever others do between its steps: the coroutine holds the mutex, or waits behind everybody before it; alone it waits iff the mutex is not free |
| `AsyncMutexes.AsyncMutex.UnlockMutex` | Example_3_std_boost/libs/cppcoro/lib/async_mutex.cpp:43-86 | a whole call, whatever others do: the longest waiter owns the mutex and is resumed, or nobody waits and it is free |
| `Heaps.FrontIsEarliest` | Example_3_std_boost/libs/cppcoro/lib/io_service.cpp:130-137 | the front of the heap is due first |
| `Heaps.PushHeap` | Example_3_std_boost/libs/cppcoro/lib/io_service.cpp:189-190 | a heap of the same timers |
| `Heaps.PopHeap` | Example_3_std_boost/libs/cppcoro/lib/io_service.cpp:213-215 | the front moves to the end and the others are a heap of the same timers |
| `Heaps.MakeHeap` | Example_3_std_boost/libs/cppcoro/lib/io_service.cpp:272-275 | a heap of the same timers |
| `TimerQueues.TimerQueue.IsEmpty` | Example_3_std_boost/libs/cppcoro/lib/io_service.cpp:157-160 | empty iff no timer is queued in either place |
| `TimerQueues.TimerQueue.EarliestDueTime` | Example_3_std_boost/libs/cppcoro/lib/io_service.cpp:162-182 | the true minimum of all due times |
| `TimerQueues.TimerQueue.EnqueueTimer` | Example_3_std_boost/libs/cppcoro/lib/io_service.cpp:184-205 | whether or not memory is found the timer is queued once |
| `TimerQueues.TimerQueue.DequeueDueTimers` | Example_3_std_boost/libs/cppcoro/lib/io_service.cpp:207-228 | exactly the timers due by then move to the list |
| `TimerQueues.TimerQueue.RemoveCancelledTimers` | Example_3_std_boost/libs/cppcoro/lib/io_service.cpp:230-294 | exactly the cancelled timers move to the list, and the heap is restored |
| `TimerQueues.Compact` | Example_3_std_boost/libs/cppcoro/lib/io_service.cpp:247-270 | the compaction keeps the others in order |
| `TimedOperations.Link` | Example_3_std_boost/libs/cppcoro/lib/io_service.cpp:202-203 | inserting through a pointer to a link yields the longer list |
| `TimedOperations.Unlink` | Example_3_std_boost/libs/cppcoro/lib/io_service.cpp:285-285 | removing through a pointer to a link yields the shorter list |
| `TimedOperations.GenuineAreApart` | Example_3_std_boost/libs/cppcoro/lib/io_service.cpp:184-294 | as no timer is queued twice, no operation is in two places |
| `TimerQueues.TimerQueue.RemoveFromList` | Example_3_std_boost/libs/cppcoro/lib/io_service.cpp:278-293 | the scan of the linked overflow list unlinks exactly the cancelled timers and pushes them onto the other list |
| `TimerQueues.TimerQueue.InsertSorted` | Example_3_std_boost/libs/cppcoro/lib/io_service.cpp:194-203 | the timer comes behind those due no later and before all others, and the linked list stays sorted |
| `TimerQueues.TimerQueue.DequeueFromList` | Example_3_std_boost/libs/cppcoro/lib/io_service.cpp:221-227 | the due timers move from one linked list to the other |
| `TimerQueues.SplitIsExact` | Example_3_std_boost/libs/cppcoro/lib/io_service.cpp:207-294 | such a split leaves every occurrence of a timer where its kind belongs |
| `TimerQueues.ServeTimers` | Example_3_std_boost/libs/cppcoro/lib/io_service.cpp:813-822 | after the due timers were taken the earliest due time is in the future |
| `Text.ParsePort` | Example_3_std_boost/libs/cppcoro/lib/ipv4_endpoint.cpp:24-37 | the digits below 65536, leading zeros allowed, and nothing else |
| `Text.DigitsAreDecimal` | Example_3_std_boost/libs/cppcoro/lib/ipv4_endpoint.cpp:14-22 | the ten digits have the values of their order |
| `Text.DecimalIsByPlaces` | Example_3_std_boost/libs/cppcoro/lib/ipv4_endpoint.cpp:24-37 | reading from the left counts every digit by its place |
| `Text.PortRoundTrip` | Example_3_std_boost/libs/cppcoro/lib/ipv6_endpoint.cpp:24-47 | a printed port is read back |
| `Text.DecimalOfValue` | Example_3_std_boost/libs/cppcoro/lib/ipv4_address.cpp:142-174 | without leading zeros a number has one decimal text |
| `Ipv4.Print` | Example_3_std_boost/libs/cppcoro/lib/ipv4_address.cpp:142-174 | dotted decimal, within a buffer of 15 characters |
| `Ipv4.ParseInteger` | Example_3_std_boost/libs/cppcoro/lib/ipv4_address.cpp:57-76 | the first number, or its overflow |
| `Ipv4.OverflowGuard` | Example_3_std_boost/libs/cppcoro/lib/ipv4_address.cpp:58-73 | the guard rejects a digit iff the value would reach 2^32 |
| `Ipv4.ParseByte` | Example_3_std_boost/libs/cppcoro/lib/ipv4_address.cpp:102-128 | one byte of up to three digits |
| `Ipv4.FromString` | Example_3_std_boost/libs/cppcoro/lib/ipv4_address.cpp:24-140 | what the parser accepts, by its loops |
| `Ipv4.RoundTrip` | Example_3_std_boost/libs/cppcoro/lib/ipv4_address.cpp:24-174 | every printed address is read back |
| `Ipv4.IntegerParsesIff` | Example_3_std_boost/libs/cppcoro/lib/ipv4_address.cpp:57-81 | digits without a leading zero are an address iff their value is below 2^32 |
| `Ipv4.AcceptedTexts` | Example_3_std_boost/libs/cppcoro/lib/ipv4_address.cpp:24-140 | accepted are exactly the printed addresses and the integers below 2^32 without leading zeros |
| `Ipv6.ParserIsExact` | Example_3_std_boost/libs/cppcoro/lib/ipv6_address.cpp:52-268 | the hexadecimal texts accepted are exactly those of section 2.2 of RFC 4291: eight groups, or at most seven around one double colon, which stands for zeros |
| `Ipv6.CompressedParses` | Example_3_std_boost/libs/cppcoro/lib/ipv6_address.cpp:236-261 | `pre::post` with at most seven groups is pre, zeros, post |
| `Ipv6.FullParses` | Example_3_std_boost/libs/cppcoro/lib/ipv6_address.cpp:79-268 | eight groups are read as they stand |
| `Ipv6.RoundTrip` | Example_3_std_boost/libs/cppcoro/lib/ipv6_address.cpp:52-362 | every printed address is read back |
| `Ipv6.FromString` | Example_3_std_boost/libs/cppcoro/lib/ipv6_address.cpp:52-268 | the loops of the parser compute what `Parse` does |
| `Ipv6.FillGap` | Example_3_std_boost/libs/cppcoro/lib/ipv6_address.cpp:243-260 | moving the groups down in place and zeroing the gap |
| `Ipv6.Print` | Example_3_std_boost/libs/cppcoro/lib/ipv6_address.cpp:270-362 | the loops of the printer, within a buffer of 40 characters |
| `Ipv6.FindLongestRun` | Example_3_std_boost/libs/cppcoro/lib/ipv6_address.cpp:272-296 | the nested loops find the first longest run of zeros |
| `Ipv6.LongestRunIsFirst` | Example_3_std_boost/libs/cppcoro/lib/ipv6_address.cpp:272-296 | no run of zeros is longer, and none as long starts earlier |
| `Ipv6.DoubleColonIsCanonical` | Example_3_std_boost/libs/cppcoro/lib/ipv6_address.cpp:324-357 | sections 4.2.2, 4.2.3 and 4.3 of RFC 5952, of the printed text: it has a double colon iff two neighbouring groups are zero, and no upper-case digit |
| `Ipv6.PrintedIsTheRecommended` | Example_3_std_boost/libs/cppcoro/lib/ipv6_address.cpp:270-362 | sections 4.1 to 4.3 of RFC 5952 allow exactly one text of an address, and it is the one printed |
| `Ipv6.HexText` | Example_3_std_boost/libs/cppcoro/lib/ipv6_address.cpp:303-322 | sections 4.1 and 4.3 of RFC 5952: no leading zeros, lower case |
| `Ipv6.ValueOfHexText` | Example_3_std_boost/libs/cppcoro/lib/ipv6_address.cpp:220-224 | a printed group has the value it was printed for |
| `Ipv6.DigitsAreHexadecimal` | Example_3_std_boost/libs/cppcoro/lib/ipv6_address.cpp:25-43 | the sixteen digits have the values of their order, in both cases; those printed are lower case |
| `Ipv6.PrintedDenotes` | Example_3_std_boost/libs/cppcoro/lib/ipv6_address.cpp:270-362 | a printed text is a well-formed one of the address |
| `Endpoints.V4EndpointRoundTrip` | Example_3_std_boost/libs/cppcoro/lib/ipv4_endpoint.cpp:41-71 | every printed IPv4 endpoint is read back |
| `Endpoints.V6EndpointRoundTrip` | Example_3_std_boost/libs/cppcoro/lib/ipv6_endpoint.cpp:41-84 | every printed IPv6 endpoint is read back |
| `Endpoints.EndpointRoundTrip` | Example_3_std_boost/libs/cppcoro/lib/ip_endpoint.cpp:8-27 | every endpoint is read back through the dispatch between the families |
| `Endpoints.V6EndpointIsNotV4` | Example_3_std_boost/libs/cppcoro/lib/ip_endpoint.cpp:13-19 | no printed IPv6 endpoint is taken for an IPv4 endpoint |
| `Endpoints.AddressRoundTrip` | Example_3_std_boost/libs/cppcoro/lib/ip_address.cpp:8-27 | every address is read back through the dispatch between the families |
| `Endpoints.V4ParserIsExact` | Example_3_std_boost/libs/cppcoro/lib/ipv4_endpoint.cpp:49-71 | accepted are exactly an address, a colon and a port: the first colon is the right one |
| `Endpoints.V6ParserIsExact` | Example_3_std_boost/libs/cppcoro/lib/ipv6_endpoint.cpp:51-84 | accepted are exactly a bracketed address, a colon and a port: the first closing bracket is the right one |
| `Endpoints.V4FromString` | Example_3_std_boost/libs/cppcoro/lib/ipv4_endpoint.cpp:49-71 | accepts exactly the texts of IPv4 endpoints, for their endpoints |
| `Endpoints.V6FromString` | Example_3_std_boost/libs/cppcoro/lib/ipv6_endpoint.cpp:51-84 | accepts exactly the texts of IPv6 endpoints, for their endpoints |
| `Endpoints.V4ToString` | Example_3_std_boost/libs/cppcoro/lib/ipv4_endpoint.cpp:41-47 | address, colon, port, which is read back |
| `Endpoints.V6ToString` | Example_3_std_boost/libs/cppcoro/lib/ipv6_endpoint.cpp:41-49 | address in brackets, colon, port, which is read back through the dispatch |

## Left out

- Weak memory orders, Windows code, sockets, files, and the coroutine machinery itself (frames, awaiter traits, `task`, `when_all`).
- The thread pool's sleeping and waking, its scan over the other threads' queues, and `has_any_queued_work`; a lock that is waited for is a step that cannot yet happen.
- AsyncAutoResetEvents.Event.CountWaiter: requires fewer than 2^32 - 2 waiters, because the waiter count has 32 bits and the program does not check it.
- SequenceBarriers.SequenceBarrier.ExchangeForPublish: requires that everything still to be compared lies within half the range, as do the other methods that compare words; the program documents no bound, and beyond it the comparison has no meaning.
- SequenceBarriers.SequenceBarrier.Others: assumes that no other thread touches the lists a thread has in its hands, which is what the `modifies` clauses of the methods show; for the event the same is part of `Valid`.
- MultiProducerSequencers.MultiProducerSequencer.TryAdmit: requires that waiting claims do not span half the range of the sequence numbers, because the comparison of words is meaningless beyond it.
- `multi_producer_sequencer`: its own wait list (`add_awaiter`, `resume_ready_awaiters`) and `any_available`; waiting is proved on the sequence barrier, which the claims use.
- MultiProducerSequencers.MultiProducerSequencer.LastPublishedAfter: assumes that the consumers' barrier does not pass the number it starts from while it reads: the reader is one of the consumers.
- `cancellation_state`: registrations may try any slot in any order, which covers every search the free counts can lead to; `add_registration` is proved step by step and chunk by chunk, not as one call; `m_approximateTail` only shortens a walk and is not kept; reference counts and the lifetime of the state are not modelled, except that sources decide about cancellability.
- Waiting for a lock or for the end of a notification: a whole call is followed up to the point where it has to wait, and from there on; `Cancellation.WaitIsNotForever` says that the notification will end. Retry loops end because a call is interrupted finitely often.
- Exceptions: callbacks, generator bodies and schedulers do not throw; a failing allocation is an outcome.
- `single_producer_sequencer`: a claim is resumed before the next one is made, as a single producer does.
- `recursive_generator`: generators are fresh, finite trees; fmap and moving generators are not modelled.
- The timer queue: tokens are read once for each timer, so the set of cancelled timers is a parameter. The timer thread's waiting is not modelled.
- IPv6 texts with a dotted decimal tail: the outcome `DottedTail` says that the parser has reached a dot that may begin one; what follows in the program reads a character without checking the length, and is not modelled.
- `static_thread_pool`'s round robin and `schedule`, the latch, the manual reset event, `shared_task` and the single-consumer events: simpler copies of wait lists proved here.
