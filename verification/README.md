# The RT-Thread 2.0.1 kernel and the finsh shell in Dafny

A model of the RT-Thread kernel core and of the finsh C-expression shell, with proofs of what they are for.

The kernel is modelled as steps. Every region between `rt_hw_interrupt_disable` and `rt_hw_interrupt_enable` is
one atomic step; a blocking call is split at `rt_schedule` into the step that suspends and the step that goes on
after waking. A run is any sequence of steps of any number of threads, so a theorem about runs is one about every
interleaving. What the C code updates in place is updated in place here too: each object is a class with the
fields of the C structure, and its methods are proved equal to the step functions on values, for which the
invariants and the theorems about runs are proved. Intrusive lists, block headers and the syntax tree are linked
structures with `next` and `prev`; byte arrays hold payloads and code.

The modules named `...Calls`, `...Fits`, `MessageIdeal` and `FinshMeaning` say what every call answers and changes without
mentioning the step functions' own cases, so that the step functions are not their own specification.

| files | model |
|---|---|
| `Waiting`, `RtList` | wait lists of kernel objects; the circular list underneath |
| `Mailbox`, `MailboxCalls`, `MailboxRing` | mailboxes: no lost wakeup, FIFO of the values sent; the ring buffer |
| `MessageQueue`, `MessageIdeal`, `MessageSlots`, `MessageQueueObject` | message queues with their unlocked copies: slot ownership, delivery order, refinement of a queue of whole messages |
| `Mutex`, `MutexCalls`, `MutexObject` | recursive mutexes with priority inheritance |
| `Event`, `EventCalls`, `EventObject` | events: no satisfied waiter is left suspended |
| `Timer`, `TimerExpiry`, `TimerCalls`, `TimerEnds`, `TimerRows` | timers under 32-bit ticks: order, at which ticks a timer fires, when the expiry loop ends, skip list with any number of rows |
| `BlockList`, `PoolBytes` | what both boundary-linked heaps share: free bytes, payload bytes |
| `MemHeap`, `MemHeapOps`, `MemHeapFits`, `MemHeapRuns`, `MemHeapObject` | memheap.c |
| `SmallMem`, `SmallMemRuns`, `SmallMemFits`, `SmallMemObject` | mem.c |
| `Pages`, `SizeClass`, `Slab`, `SlabHeap`, `SlabAlign`, `SlabCalls`, `SlabObject` | slab.c |
| `Ffs`, `Ready`, `RoundRobin`, `Threads`, `ThreadCalls` | bitmap scheduler, time slices, thread states |
| all `Finsh...` files | finsh: attribute pass, code generation, byte-code machine, compiler correctness, what expressions mean |

Words are integers with the C wrap-around written out: ticks, tick differences, request sizes, the mutex `hold`
byte and the lock nest counter are taken modulo their width. Both heaps use 32-bit pointers and 4-byte alignment.

## Where the code and its description differ

The code is followed; each difference is a theorem with the exact condition.

- `lfree` is described as the lowest free block (`code/src/mem.c:127`). That holds in runs of
  malloc and free; a shrinking realloc keeps it if and only if `SmallMemRuns.ShrinkLowest` says so, and with
  `lfree` at `heap_end` the heap serves nothing although blocks may be free (`SmallMemRuns.BlindAtEnd`).
- The search bound of mem.c refuses an exact fit at the end of the heap (`SmallMemRuns.StrictBound`), and
  memheap.c needs strictly more available bytes than it hands out (`MemHeapOps.AllocKeepsInv`).
- slab.c promises power-of-two alignment for all power-of-two sizes; it holds up to a page, and above it exactly
  when the page that will serve the request is a multiple (`SlabAlign.PowerOfTwoAligned`, `SlabAlign.OddPages`).
  It also promises that `malloc(0)` is not null; it always is (`SlabAlign.FailsExactly`).
- The size class index is not stable under rounding for requests above 15360 (`SizeClass.Idempotent`).
- The mutex `hold` byte wraps at the 256th nested take (`Mutex.StepKeepsInv`). On a FIFO mutex inheritance is lost
  at exactly those hand-overs that pass over a more urgent waiter (`Mutex.HandOverClear`, `Mutex.InversionInRuns`,
  `Mutex.FifoInversion`).
- A one-shot timer ends up linked but not activated exactly if the last call of its callback on it is a start
  (`TimerExpiry.SelfRestart`). The expiry loop need not end: it runs forever exactly if it comes back to due timers
  and flags it had before (`TimerEnds.EndsUnlessRepeating`, `TimerEnds.RingOfTwo`), which without zero-tick starts
  means that a timer of its first round is periodic with period zero and left alone by its own callback and by all
  that run after it (`TimerEnds.EndsUnlessSpinning`).
- `rt_timer_start` and `rt_timer_stop` are not atomic: another start of the same timer between their parts is the one
  thing that breaks the list or its flag (`TimerExpiry.StartInterleaved`, `TimerExpiry.StopInterleaved`).
- The scheduler lock counter is said to hold 65535 levels; it is signed and holds exactly 32768
  (`Ready.LockedIffFits`).
- The guard of in-place growth in memheap.c can pass by 32-bit wrap-around; exactly then the call breaks the heap
  (`MemHeapRuns.ResizeIffNoWrap`, `MemHeapRuns.WrapWitness`).
- A finsh operator whose first operand starts with a call emits nothing of its own (`FinshTyping.RunsRightIffTyped`).
- `rt_thread_resume` leaves a gap without the lock. However its resumes overlap, the thread lists are corrupted
  exactly when one of them ends on a thread that is in a list by then (`Threads.ConsistentIffApart`,
  `Threads.StartedTwice`), which one resume of a thread at a time rules out (`Threads.OneAtATime`).

## Model

| member | source | states |
|---|---|---|
| Waiting.ListSuspend | code/src/ipc.c:92-135 | the loop over a wait list puts the thread exactly where the insertion function does, for both flags |
| Waiting.EnqueueFifo | code/src/ipc.c:99-103 | a FIFO wait list grows at its end |
| Waiting.EnqueueMembers | code/src/ipc.c:92-135 | suspending adds exactly this thread to the list, once, and taking it off again gives the list back |
| Waiting.EnqueueSorted | code/src/ipc.c:111-133 | a priority wait list stays sorted |
| Waiting.EnqueuePlace | code/src/ipc.c:111-129 | on any list the thread is linked directly before the first one less urgent, behind all that came earlier and are as urgent, and at the end if there is none |
| Waiting.RemoveMembers | code/src/ipc.c:146-159 | resuming takes off exactly this thread and nobody else |
| Waiting.RemoveSorted | code/src/ipc.c:146-159 | taking any thread off keeps a wait list sorted |
| Waiting.RemoveBetween | code/src/ipc.c:146-159 | those before the thread taken off and those behind it stay, in their order |
| RtList.InsertRing | code/include/rtservice.h:62-69 | inserting a node keeps next and prev mutually inverse round the whole ring |
| RtList.RemoveRing | code/include/rtservice.h:90-96 | unlinking through the removed node's own links closes the ring over it |
| RtList.ListNodes.Init | code/include/rtservice.h:51-54 | a node is a ring of its own; all other links are untouched |
| RtList.ListNodes.InsertAfter | code/include/rtservice.h:62-69 | the ring with the node behind the given one; links outside the ring untouched |
| RtList.ListNodes.InsertBefore | code/include/rtservice.h:77-84 | the node in front of the given one, at the end of the list if that is the head |
| RtList.ListNodes.Remove | code/include/rtservice.h:90-96 | the ring without the node, and the node a ring of its own |
| RtList.ListNodes.RemoveUnlinked | code/include/rtservice.h:90-96 | removing a node that is in no list changes nothing, which the callers rely on |
| RtList.ListNodes.IsEmpty | code/include/rtservice.h:102-105 | true if and only if the head is alone in its ring |
| Mailbox.StepKeepsInv | code/src/ipc.c:1404-1674 | every step of every interleaving of send, receive, timeout, foreign resume, priority change and reset keeps the whole invariant |
| Mailbox.NoLostWakeupInAnyRun | code/src/ipc.c:1404-1674 | in any run, if a receiver is suspended there are no more mails than receivers woken and yet to re-check; the same for senders and free slots; never more mails than slots |
| Mailbox.Quiescent | code/src/ipc.c:1404-1674 | with nobody woken in between: receivers wait only at an empty mailbox, senders only at a full one, and never both |
| Mailbox.PutKeeps | code/src/ipc.c:1496-1516 | storing a mail appends it and wakes a receiver whenever one waits, so no wakeup is lost |
| Mailbox.GetKeeps | code/src/ipc.c:1643-1666 | fetching a mail takes the oldest and wakes a sender whenever one waits |
| Mailbox.WakeKeeps | code/src/thread.c:636-657 | a timeout, which takes a waiter off its list with an error, loses no wakeup |
| Mailbox.ResetKeeps | code/src/ipc.c:1686-1715 | a reset fails all waiters, empties the mailbox and keeps the invariant |
| Mailbox.StepQueue | code/src/ipc.c:1496-1674 | a step changes the stored mails only as its outcome says, and what it delivers is the oldest |
| MailboxCalls.SendAnswers | code/src/ipc.c:1404-1522 | a send is accepted with its own value exactly when a slot is free, refused EFULL exactly when none is and the timeout is zero, else the thread waits with that value; an accepted one wakes the first receiver and moves nobody else |
| MailboxCalls.IsrAnswers | code/src/ipc.c:1535-1538 | from an interrupt routine: accepted with its value exactly when a slot is free, else refused EFULL with nothing changed |
| MailboxCalls.RecvAnswers | code/src/ipc.c:1551-1674 | a receive gets the oldest mail exactly when there is one, is refused ETIMEOUT exactly when there is none and the timeout is zero, else it waits; the first sender is woken and nobody else moved |
| MailboxCalls.ContinueAnswers | code/src/ipc.c:1476-1516 | a woken thread returns its error, or tries again with the value it was called with and the time left |
| MailboxCalls.RemainingIsLeft | code/src/ipc.c:1487-1494 | the time left is the timeout less the ticks gone by, or zero, if and only if the 32-bit difference has not come round to positive again |
| MailboxCalls.WakeAnswers | code/src/thread.c:595-657 | a timeout, or a resume by another thread, takes exactly this thread off its list; only the timeout leaves an error |
| MailboxCalls.ResetAnswers | code/src/ipc.c:1686-1715 | a reset drops the mails and gives the error to all that wait and to nobody else |
| MailboxCalls.FifoOfCalls | code/src/ipc.c:1404-1674 | over any run without reset, the values passed to the sends that were accepted, in that order, are the mails delivered and then those still stored |
| MailboxRing.MailboxObject.constructor | code/src/ipc.c:1253-1281 | a fresh mailbox represents the initial state |
| MailboxRing.MailboxObject.Store | code/src/ipc.c:1496-1516 | the ring write with its wrapped offset appends to the queue of mails |
| MailboxRing.MailboxObject.Fetch | code/src/ipc.c:1643-1666 | the ring read returns the oldest mail and removes it |
| MailboxRing.MailboxObject.ResumeHead | code/src/ipc.c:146-159 | the first waiter, and only it, is made ready without an error |
| MailboxRing.MailboxObject.SendPass | code/src/ipc.c:1433-1522 | one pass of the send loop is the step function of the loop, in place |
| MailboxRing.MailboxObject.RecvPass | code/src/ipc.c:1578-1674 | one pass of the receive loop is the step function of the loop, in place |
| MailboxRing.MailboxObject.SendWait | code/src/ipc.c:1404-1522 | the first region of a send, in place, is the send step and keeps the invariant |
| MailboxRing.MailboxObject.Recv | code/src/ipc.c:1551-1674 | the first region of a receive, in place, is the receive step and keeps the invariant |
| MailboxRing.MailboxObject.Continue | code/src/ipc.c:1476-1522 | after being woken, by a mail or with an error, a thread re-checks or gives up, in place, as the step of which MailboxCalls.ContinueAnswers says that it sends the value of the call |
| MailboxRing.MailboxObject.ThreadTimeout | code/src/thread.c:636-657 | the timeout of a waiter, in place, is the timeout step |
| MailboxRing.MailboxObject.ResetMailbox | code/src/ipc.c:1686-1715 | in place, the reset step |
| MailboxRing.MailboxObject.ResumeAll | code/src/ipc.c:169-197 | the loop empties one wait list, gives every thread of it the error, and leaves all others alone |
| MessageQueue.StepKeepsInv | code/src/ipc.c:1924-2278 | every step of every interleaving, with each byte copied being a step of its own, keeps ownership, contents and wakeups |
| MessageQueue.SafeInAnyRun | code/src/ipc.c:1924-2278 | in any run the slots partition into free list, queue and slots held in flight; a linked message's bytes are those sent; suspended receivers are covered by woken ones |
| MessageQueue.RunConserves | code/src/ipc.c:1924-2278 | free slots, queued slots and slots in flight always add up to the number of slots |
| MessageQueue.DeliveryOrder | code/src/ipc.c:1924-2221 | in any run, replaying what was linked, urgent messages in front and others at the end, explains what is queued and everything that is received; MessageIdeal.IdealInAnyRun ties what was linked to the calls |
| MessageQueue.MessageStable | code/src/ipc.c:2192-2216 | while a receiver copies, no step of any other thread touches its slot or the message in it |
| MessageQueue.DeliveredBytes | code/src/ipc.c:2207-2221 | what a receiver ends up with is the message that was linked, byte by byte, up to the smaller of the two sizes |
| MessageQueue.TimerMeansWaiting | code/src/thread.c:636-657 | a running thread timer belongs to a suspended receiver, so the assertion in the timeout never fails |
| MessageQueue.IntactCopyIn | code/src/ipc.c:1955-1961 | a byte copied without the lock goes into the sender's own slot and disturbs no queued or held message |
| MessageQueue.OwnedReserve | code/src/ipc.c:1940-1956 | taking the free head gives the sender a slot nobody else holds |
| MessageQueue.OwnedTake | code/src/ipc.c:2192-2205 | taking the queue head gives the receiver a slot nobody else holds |
| MessageQueue.OwnedRelease | code/src/ipc.c:2210-2216 | the receiver's slot goes back to the free list, once |
| MessageQueue.OwnedLink | code/src/ipc.c:1963-1979 | the sender's slot joins the queue, at the end or at the front, once |
| MessageQueue.OwnedReset | code/src/ipc.c:2249-2267 | a reset moves all queued slots to the free list and none of those in flight |
| MessageQueue.AwakeWake | code/src/ipc.c:1978-1992 | one more message together with one more woken receiver keeps the wakeup balance |
| MessageQueue.AwakeLeave | code/src/ipc.c:2172-2205 | a receiver that leaves the loop takes a message with it, or had an error, so the balance holds |
| MessageIdeal.StepFollows | code/src/ipc.c:1924-2278 | every step of the queue, with its unlocked copies, is the step of an ideal queue of whole messages with the same answer: a call is refused ERROR exactly when its message is too long, EFULL exactly when messages and copies in flight fill the queue, and what is linked, in front or at the end, is what that thread was called with |
| MessageIdeal.RunFollows | code/src/ipc.c:1924-2278 | so every run of every interleaving is one of the ideal queue, answer by answer |
| MessageIdeal.IdealInAnyRun | code/src/ipc.c:1738-2278 | from initialisation on, in any run the callers are told what an ideal queue of whole messages tells them: receivers get the messages passed to send and urgent, in the order of sending with urgent ones in front, up to the smaller size |
| MessageSlots.SlotLists.constructor | code/src/ipc.c:1738-1785 | the slots form one acyclic free list, last slot first, and an empty queue |
| MessageSlots.SlotLists.TakeFree | code/src/ipc.c:1942-1953 | the head of the free list, or null exactly when it is empty |
| MessageSlots.SlotLists.LinkTail | code/src/ipc.c:1958-1979 | the slot becomes the tail, also of an empty queue; entry and both links stay right |
| MessageSlots.SlotLists.LinkHead | code/src/ipc.c:2052-2061 | the slot becomes the head, and the tail of an empty queue |
| MessageSlots.SlotLists.TakeHead | code/src/ipc.c:2192-2202 | the head leaves the queue, the tail becomes null with the last message |
| MessageSlots.SlotLists.PutFree | code/src/ipc.c:2212-2214 | the slot becomes the free head; the queue's links are untouched |
| MessageSlots.SlotLists.ReleaseAll | code/src/ipc.c:2249-2267 | the loop moves the whole queue to the free list in reverse order |
| MessageQueueObjects.MessageQueueObject.constructor | code/src/ipc.c:1738-1785 | a fresh queue object represents the initial state |
| MessageQueueObjects.MessageQueueObject.ReserveSlot | code/src/ipc.c:1924-1956 | first locked region of send and urgent, in place: the reserve step, of which MessageIdeal.StepFollows says when it is refused and that message and urgency of the call are kept |
| MessageQueueObjects.MessageQueueObject.StoreByte | code/src/ipc.c:1960-1961 | one byte of the unlocked copy, in place: the copy step |
| MessageQueueObjects.MessageQueueObject.LinkSlot | code/src/ipc.c:1963-1998 | second locked region of send and urgent, in place: link, count and wake as the step does |
| MessageQueueObjects.MessageQueueObject.RecvStart | code/src/ipc.c:2095-2205 | first region of a receive, in place: take a message, refuse or suspend |
| MessageQueueObjects.MessageQueueObject.RecvContinue | code/src/ipc.c:2172-2205 | what a woken receiver does, in place, time left recomputed |
| MessageQueueObjects.MessageQueueObject.LoadByte | code/src/ipc.c:2207-2208 | one byte of the unlocked copy out, in place |
| MessageQueueObjects.MessageQueueObject.ReleaseSlot | code/src/ipc.c:2210-2221 | last region of a receive, in place: slot freed, bytes returned |
| MessageQueueObjects.MessageQueueObject.ThreadTimeout | code/src/thread.c:636-657 | the timeout of a receiver, in place |
| MessageQueueObjects.MessageQueueObject.ResetQueue | code/src/ipc.c:2234-2278 | reset in place: all receivers fail, all queued slots are free |
| Mutex.StepKeepsInv | code/src/ipc.c:642-859 | a step keeps the invariant if and only if it is not a nested take at hold 255, where the byte counter wraps to zero |
| Mutex.MutualExclusion | code/src/ipc.c:642-859 | over any run, takes minus releases is never negative, and positive for at most one thread |
| Mutex.PriorityInheritance | code/src/ipc.c:642-859 | in any run every thread but the owner has its own priority; the owner has the minimum of its own and of all that blocked since it acquired, so it is never less urgent than a waiter of a priority mutex |
| Mutex.RunBalance | code/src/ipc.c:642-859 | the nesting depth of each thread is its successful takes minus its successful releases |
| Mutex.HandOverClear | code/src/ipc.c:809-849 | at a last release with waiters, for either flag: the new owner is at least as urgent as all left waiting if and only if the first waiter was the most urgent by its own priority |
| Mutex.StepClear | code/src/ipc.c:642-859 | every other step, and such a release, keeps the owner at least as urgent as all waiters; the release of an owner over a first waiter that is not the most urgent is the only step that does not |
| Mutex.InversionInRuns | code/src/ipc.c:642-859 | over any run from initialisation, for either flag: at no point is a waiter more urgent than the owner if and only if no last release passes over a more urgent waiter, and on a priority mutex none ever does |
| Mutex.FifoInversion | code/src/ipc.c:772-859 | so inheritance is lost at hand-over on a FIFO mutex: whenever a less urgent thread and then a more urgent one block on the owner |
| Mutex.LendKeeps | code/src/ipc.c:706-713 | lending a more urgent waiter's priority keeps the owner at the minimum |
| Mutex.JoinKeeps | code/src/ipc.c:715-718 | after lending, the new waiter is no more urgent than the owner |
| Mutex.BlockKeeps | code/src/ipc.c:700-735 | blocking on an owned mutex keeps the invariant |
| Mutex.AcquireKeeps | code/src/ipc.c:677-686 | taking a free mutex keeps the invariant, with the taker as owner and its own priority recorded |
| Mutex.LastReleaseKeeps | code/src/ipc.c:806-849 | the last release, with the owner restored and the mutex handed over or freed, keeps the invariant |
| Mutex.RestoreKeeps | code/src/ipc.c:811-817 | restoring the recorded priority gives every thread exactly its own |
| Mutex.HeadKeeps | code/src/ipc.c:819-838 | the most urgent waiter as new owner needs no boost, although the code makes none |
| Mutex.ContinueKeeps | code/src/ipc.c:737-760 | the return of a woken thread, with the mutex or with an error, keeps the invariant |
| Mutex.TimeoutKeeps | code/src/thread.c:636-657 | the timeout of a waiter keeps the invariant: the owner still counts everyone that blocked since it acquired |
| MutexCalls.TakeAnswers | code/src/ipc.c:642-735 | a take succeeds exactly for the owner, one level deeper, and on a free mutex; else it is refused ETIMEOUT exactly when the timeout is zero, and otherwise waits at its place with its priority lent to the owner if more urgent |
| MutexCalls.ReleaseAnswers | code/src/ipc.c:772-859 | a release succeeds exactly for the owner and takes one level off; at the last the owner is back at its own priority and the mutex is the first waiter's, or free; any other is refused ERROR with nothing changed |
| MutexCalls.ContinueAnswers | code/src/ipc.c:737-760 | a woken thread returns with success exactly if it is the owner by then, else with its error |
| MutexCalls.TimeoutAnswers | code/src/thread.c:636-657 | a timeout takes exactly this thread off the list; the owner keeps what it was lent |
| MutexObjects.MutexObject.constructor | code/src/ipc.c:525-544 | a fresh mutex is free and satisfies the invariant |
| MutexObjects.MutexObject.Take | code/src/ipc.c:642-761 | take in place is the take step: nest, acquire, refuse or block |
| MutexObjects.MutexObject.Block | code/src/ipc.c:700-735 | in place: lend, then join the wait list, then arm the timer |
| MutexObjects.MutexObject.Continue | code/src/ipc.c:737-760 | in place: what the woken thread returns with |
| MutexObjects.MutexObject.Release | code/src/ipc.c:772-859 | release in place is the release step, of which MutexCalls.ReleaseAnswers says when it succeeds and what it does |
| MutexObjects.MutexObject.PassOn | code/src/ipc.c:809-849 | in place: priority restored, mutex handed over or freed |
| MutexObjects.MutexObject.ThreadTimeout | code/src/thread.c:636-657 | the timeout of a waiter, in place |
| Event.WakingIsReceiving | code/src/ipc.c:1029-1058 | being woken by a send gives the same received bits and clears the same bits as the immediate path of a receive |
| Event.SendRetriesEachReceive | code/src/ipc.c:1020-1067 | the wake loop is one retried receive for each waiter in order, on the flags the ones before left |
| Event.Shrinking | code/src/ipc.c:1056-1058 | what is met by fewer flags is met by more, so waiters passed over stay unmet while the flags shrink |
| Event.StepKeepsInv | code/src/ipc.c:998-1236 | every step of any interleaving of send, receive, timeout and reset keeps the invariant |
| Event.NoneMissedInAnyRun | code/src/ipc.c:998-1236 | in any run every suspended AND waiter misses a flag of those it wants, and every suspended OR waiter misses all of them |
| Event.ReceivedIsGranted | code/src/ipc.c:1093-1199 | whatever a receive returns, at once or after waiting, satisfies the request it was made with |
| EventCalls.SatisfiedIsGrantable | code/src/ipc.c:1123-1132 | a receive is served exactly when some flags that are set may be handed out for it: all it wants for AND, at least one of them for OR |
| EventCalls.RecvAnswers | code/src/ipc.c:1093-1175 | a receive is refused ERROR for no flags at all, served exactly when all, or for OR any, of its flags are there, with those that are and with CLEAR taking away those it wants; else refused ETIMEOUT exactly when the timeout is zero, and otherwise waiting with its request |
| EventCalls.SendAnswers | code/src/ipc.c:998-1077 | a send adds its flags and serves in turn every waiter whose flags are there when it is its turn, with those that are; all others wait on in their order |
| EventCalls.ContinueAnswers | code/src/ipc.c:1177-1199 | a woken thread returns its error or the flags it was given |
| EventCalls.TimeoutAnswers | code/src/thread.c:636-657 | a timeout takes exactly this thread off the list and leaves the flags alone |
| EventCalls.ResetAnswers | code/src/ipc.c:1211-1236 | a reset clears the flags and gives the error to all that wait and to nobody else |
| EventCalls.NobodySleepsInVain | code/src/ipc.c:998-1236 | over any run, by the arguments of the calls: whoever still waits asked for a flag that is not set if it asked for all, and for none that is set if it asked for any |
| EventObjects.EventObject.constructor | code/src/ipc.c:889-906 | a fresh event satisfies the invariant |
| EventObjects.EventObject.Send | code/src/ipc.c:998-1077 | send in place is the send step |
| EventObjects.EventObject.Recv | code/src/ipc.c:1093-1175 | receive in place is the receive step, of which EventCalls.RecvAnswers says when it is served, refused or suspended |
| EventObjects.WakeLoop | code/src/ipc.c:1020-1067 | the loop wakes exactly the waiters the pass function wakes, with its flags and received bits |
| Timer.WindowOrder | code/src/timer.c:356-363 | inside a window of half the tick range, wrap-around comparison is comparison of distances |
| Timer.LaterBy | code/src/timer.c:316-321 | adding a delay inside the window moves the timeout by exactly that much, across the wrap too |
| Timer.PositionSplits | code/src/timer.c:340-367 | a scan stops behind every timer that is due earlier or at the same tick, and before all later ones |
| Timer.InsertOrdered | code/src/timer.c:351-377 | inserting there keeps the list sorted with ties in start order |
| Timer.WithoutOrdered | code/src/timer.c:123-131 | unlinking keeps the order |
| Timer.StartKeepsInv | code/src/timer.c:294-409 | starting, or restarting, a timer with nothing between its two regions keeps the list sorted and links it exactly once |
| Timer.DetachKeepsInv | code/src/timer.c:305-312 | the first region of a start, and the locked region of a stop, keep the list sorted |
| Timer.LinkKeepsInv | code/src/timer.c:323-394 | the second region of a start keeps it sorted if and only if the timer is not linked already |
| Timer.StartInTwo | code/src/timer.c:305-394 | the two regions one after the other are the start as one step |
| Timer.StopKeepsInv | code/src/timer.c:419-442 | stopping unlinks exactly this timer and keeps the order |
| TimerExpiry.CheckFires | code/src/timer.c:488-546 | for delays of at least one tick, the expiry loop fires exactly the timers due at entry, in timeout order, without those an earlier callback touched, and leaves no due timer linked |
| TimerExpiry.CheckSettles | code/src/timer.c:488-546 | a fired periodic timer is armed at now plus period, a fired one-shot is inactive, and a timer neither fired nor touched is unchanged |
| TimerExpiry.FiresUnlessTouched | code/src/timer.c:488-546 | a timer fires if and only if it was due and no callback that ran before it stopped or restarted it |
| TimerExpiry.FiresOnce | code/src/timer.c:488-546 | no timer fires twice in one check |
| TimerExpiry.StartDue | code/src/timer.c:294-409 | starting a timer makes it due if and only if its delay is zero, and changes nothing of the others that are due |
| TimerExpiry.RunKeeps | code/src/timer.c:517-518 | a callback's starts and stops take away from the due timers exactly those it touches |
| TimerExpiry.FireKeeps | code/src/timer.c:501-540 | one turn of the loop keeps the order, takes off the head and settles it |
| TimerExpiry.FireTurns | code/src/timer.c:501-540 | one turn of the loop, for any periods: the order is kept, and the due timers lose their head and those its callback touches, except that a periodic timer of zero ticks left alone by its callback goes behind them all |
| TimerEnds.FireView | code/src/timer.c:501-540 | for callbacks of every kind, zero-tick and self-restarting starts included: what one turn of the loop does to the due timers and the flags depends on these alone |
| TimerEnds.EndsUnlessRepeating | code/src/timer.c:488-546 | for callbacks of every kind: the expiry loop ends if and only if no turn, among the first as many as there are queues of the timers of the system, comes back to due timers and flags that were there before |
| TimerEnds.EndsUnlessSpinning | code/src/timer.c:488-546 | for callbacks that start no zero-tick timers, and due timers that are activated: the loop ends if and only if none of the timers that fire in its first round is periodic with period zero and left alone by its own callback and by all that run after it |
| TimerEnds.RingOfTwo | code/src/timer.c:488-546 | two one-shot timers of zero ticks that start each other keep the loop running for ever |
| TimerExpiry.RunLinks | code/src/timer.c:294-442 | after the calls of a callback a timer is linked, and activated, exactly if its last call on it is a start, or it makes none and the timer was |
| TimerExpiry.StartInterleaved | code/src/timer.c:305-394 | with any calls of others between the two regions of a start, the list stays in order if and only if none of them leaves this timer started |
| TimerExpiry.StopInterleaved | code/src/timer.c:419-442 | with any calls between the locked region of a stop and the flag it clears afterwards, linked and activated agree if and only if none of them leaves this timer started |
| TimerExpiry.SelfRestart | code/src/timer.c:532-536 | for every callback of a one-shot timer: afterwards the timer is linked but not activated, and refused by stop, if and only if the last call the callback makes on it is a start |
| TimerExpiry.Rebase | code/src/timer.c:356-363 | when the clock advances with nothing due, the window moves on with it |
| TimerExpiry.NextKeeps | code/src/clock.c:83-105 | with delays of at least one tick, a call between ticks, or a tick with its check, keeps the timers ordered and nothing overdue |
| TimerExpiry.OrderedInAnyRun | code/src/timer.c:294-546 | so does any run of any length, through any number of wrap-arounds of the tick |
| TimerCalls.StartAnswers | code/src/timer.c:294-409 | a started timer is linked, activated, times out exactly its delay from now and behind all started earlier for that tick; every other timer is as it was and in its order |
| TimerCalls.StopAnswers | code/src/timer.c:419-442 | a stop is refused exactly for a timer that is not activated; else this timer alone is off the list and inactive |
| TimerCalls.TickFires | code/src/timer.c:488-546 | a tick fires a timer left alone exactly when it is one tick ahead, re-arms it a period ahead if it is periodic, and brings any other one tick closer |
| TimerCalls.FiresEvery | code/src/timer.c:294-546 | over any run that leaves a timer alone, how often its timeout function runs: never before its tick, once from then on for a one-shot, and every period for a periodic one, through any number of wrap-arounds |
| TimerCalls.FiresOnTime | code/src/timer.c:294-546 | so a timer that is started and left alone fires at the tick its delay later and at no tick before |
| TimerRows.RowIsSublist | code/src/timer.c:339-388 | with the order, an upper row whose timers are all in the row below is a sublist of it |
| TimerRows.Scan | code/src/timer.c:342-364 | the inner loop, started wherever the row above stopped, ends where a scan of the whole row would |
| TimerRows.FindRowHeads | code/src/timer.c:339-367 | the nested loops find in every row the position a linear scan of that row finds |
| TimerRows.LinkRows | code/src/timer.c:373-388 | the second loop links the timer into the lowest rows, as many as the counter's bits say |
| TimerRows.LinkNested | code/src/timer.c:339-388 | after linking every row is sorted and still contained in the one below |
| TimerRows.HeightIs | code/src/timer.c:373-388 | a timer is linked into the row k above the bottom exactly if the start counter is a multiple of the radix to the power of k |
| TimerRows.RemoveNested | code/src/timer.c:123-131 | unlinking from all rows keeps every row sorted and nested |
| TimerRows.TimerList.constructor | code/src/timer.c:671-680 | empty rows represent the empty list |
| TimerRows.TimerList.Remove | code/src/timer.c:123-131 | the timer leaves every row and nothing else does |
| TimerRows.TimerList.Detach | code/src/timer.c:305-312 | in place, the first region of a start: off every row, not activated |
| TimerRows.TimerList.LinkTimer | code/src/timer.c:323-394 | in place, the second region: for any number of rows the skip list is linked as the sorted list is, and the timer is in the lowest rows up to its height |
| TimerRows.TimerList.Start | code/src/timer.c:294-394 | both regions with nothing between them: the start on the sorted list |
| TimerRows.TimerList.Stop | code/src/timer.c:419-442 | in place, the stop on the list with its error code |
| TimerRows.TimerList.NextTimeout | code/src/timer.c:110-121 | the least timeout of all running timers, or RT_TICK_MAX if there is none |
| TimerRows.TimerList.RunCallback | code/src/timer.c:517-518 | the calls a timeout function makes, on the rows |
| TimerRows.TimerList.FireHead | code/src/timer.c:501-540 | one turn of the expiry loop, on the rows |
| TimerRows.TimerList.Check | code/src/timer.c:488-546 | the loop on the rows terminates and is the check on the list, firing the same timers in the same order |
| BlockList.InsertBytes | code/src/memheap.c:194-243 | splitting changes the free bytes by exactly the gap it replaces by two |
| BlockList.DropBytes | code/src/memheap.c:541-579 | merging changes the free bytes by exactly the two gaps it joins |
| BlockList.MarkBytes | code/src/memheap.c:244-250 | taking a block takes exactly its payload |
| BlockList.InsertStays | code/src/memheap.c:216-220 | a header inserted elsewhere leaves a block's address and size |
| BlockList.DropStays | code/src/memheap.c:550-579 | a header removed elsewhere leaves a used block's address and size |
| PoolBytes.PayloadKept | code/src/memheap.c:354-397 | stores into headers, old and new, never reach the payload of a block that stays |
| PoolBytes.LiveApart | code/src/memheap.c:146-288 | payloads of two live blocks do not overlap and lie inside the pool |
| PoolBytes.StoresKeep | code/src/memheap.c:354-397 | so the bytes of all other live blocks are untouched |
| PoolBytes.CopyKeeps | code/src/memheap.c:412-418 | a copy into a new block changes no other live block's bytes |
| PoolBytes.KeptThree | code/src/memheap.c:412-418 | allocate, copy, free: the three effects on the bytes of others compose |
| PoolBytes.CopyPayload | code/src/mem.c:457-465 | the copy brings over the bytes and writes nowhere else |
| MemHeap.UseSound | code/src/memheap.c:244-265 | taking a free block keeps tiling, list and byte count |
| MemHeap.ReleaseSound | code/src/memheap.c:536-539 | giving a block back keeps them, with at most itself having a free neighbour |
| MemHeap.CutSound | code/src/memheap.c:194-243 | splitting keeps them |
| MemHeap.JoinSound | code/src/memheap.c:541-579 | merging keeps them |
| MemHeapOps.AllocKeepsInv | code/src/memheap.c:146-288 | an allocation succeeds if and only if the rounded size is strictly below the available size and a free block holds it; the structure is kept; failure changes nothing (MemHeapFits.AllocCrops says how big the block is and where it comes from) |
| MemHeapOps.FreeKeepsInv | code/src/memheap.c:499-596 | freeing with both merges keeps the structure and the accounting |
| MemHeapOps.JoinNextKeeps | code/src/memheap.c:560-579 | merging with the next block restores that no neighbours are both free |
| MemHeapOps.GrowKeepsInv | code/src/memheap.c:337-406 | growing in place moves the free header by any distance, onto the old one too, and touches no other block |
| MemHeapOps.ShrinkKeepsInv | code/src/memheap.c:423-496 | shrinking in place puts a free header behind the block and merges it, touching no other block |
| MemHeapOps.AllocStays | code/src/memheap.c:146-288 | an allocation neither moves nor shrinks any live block |
| MemHeapOps.FreeStays | code/src/memheap.c:499-596 | freeing neither moves nor shrinks any other live block |
| MemHeapFits.AllocCrops | code/src/memheap.c:176-265 | an allocation takes the first block of the free list with room, hands out exactly the rounded size whenever the rest can be a block of its own, which becomes the first free block, and else less than a header and a smallest block more; what it hands out is what is taken from the available bytes |
| MemHeapFits.ResizeCrops | code/src/memheap.c:318-496 | in place: done exactly if the block, or with the free block behind it, has the room; the block then has exactly the size asked for, but that it keeps a rest too small to be a block, and the rest becomes the first free block |
| MemHeapFits.ReallocAnswers | code/src/memheap.c:291-496 | reallocation gives null for size zero, the same address exactly when there is room in place, and otherwise what an allocation gives |
| MemHeapFits.FreeOrder | code/src/memheap.c:536-596 | a block given back is the first to be tried, unless it has become part of the free block before it; the free block behind it leaves the list and all others keep their order |
| MemHeapRuns.ResizeIffNoWrap | code/src/memheap.c:318-496 | in-place resizing keeps the structure if and only if its guard does not pass by 32-bit wrap-around |
| MemHeapRuns.ReallocIffGuarded | code/src/memheap.c:291-496 | reallocation keeps the structure if and only if that guard does not wrap around on it |
| MemHeapRuns.WrapWitness | code/src/memheap.c:342-354 | a block of 12 bytes before a free one of 40 that is asked to grow to 0xfffffff4 |
| MemHeapRuns.ResizeKeepsInv | code/src/memheap.c:318-496 | without wrap-around, in-place resizing succeeds with at least the size asked for, or changes nothing; all other blocks stay |
| MemHeapRuns.GrowMisfits | code/src/memheap.c:342-354 | whenever the guard passes by wrap-around, the new header lands outside the pool |
| MemHeapRuns.MoveKeeps | code/src/memheap.c:412-420 | moving to a new block keeps the structure, frees the old one, or changes nothing |
| MemHeapRuns.ReallocKeepsInv | code/src/memheap.c:291-496 | reallocation in all its branches keeps the structure, serves the request or says so, and moves no other block, unless the guard wraps around |
| MemHeapRuns.InitInv | code/src/memheap.c:60-131 | the pool starts as one free block and the used tail |
| MemHeapRuns.StepKeepsInv | code/src/memheap.c:146-596 | every call on live blocks whose guard does not wrap around keeps the structure and max_used_size as high-water mark |
| MemHeapRuns.RunKeepsInv | code/src/memheap.c:146-596 | so does every run, and max_used_size is the greatest use at any time in it |
| MemHeapRuns.AnyRun | code/src/memheap.c:60-596 | from initialisation on, in any run of such alloc, free and realloc steps |
| MemHeapObjects.MemHeapObject.constructor | code/src/memheap.c:60-131 | the headers and both rings in memory represent the initial heap |
| MemHeapObjects.MemHeapObject.LinkBlock | code/src/memheap.c:216-220 | the address ring with one more header; only header bytes are written |
| MemHeapObjects.MemHeapObject.UnlinkBlock | code/src/memheap.c:566-574 | the address ring without a header |
| MemHeapObjects.MemHeapObject.PushFree | code/src/memheap.c:228-232 | the block at the front of the free ring, and nothing else changed |
| MemHeapObjects.MemHeapObject.UnlinkFree | code/src/memheap.c:222-226 | the block off the free ring, found by its own links |
| MemHeapObjects.MemHeapObject.FindFit | code/src/memheap.c:176-187 | the loop over the free ring finds the first block that fits, and none only if none fits |
| MemHeapObjects.MemHeapObject.TakeBlock | code/src/memheap.c:189-265 | in place: the take step, which MemHeapFits.AllocCrops shows to split whenever the rest can be a block |
| MemHeapObjects.MemHeapObject.Alloc | code/src/memheap.c:146-288 | in place; the bytes of every live block are untouched |
| MemHeapObjects.MemHeapObject.Free | code/src/memheap.c:499-596 | in place: both merges, accounting, free ring |
| MemHeapObjects.MemHeapObject.FreeBlock | code/src/memheap.c:499-596 | by address; the bytes of all other live blocks are untouched |
| MemHeapObjects.MemHeapObject.Overwrite | code/src/memheap.c:368-397 | a header in no ring may be written over: whatever its fields read as then, the rings stay |
| MemHeapObjects.MemHeapObject.GrowBlock | code/src/memheap.c:337-406 | in place, also when the new header lies inside the old one: the link fields of the old header are lost before any of the new one is written |
| MemHeapObjects.MemHeapObject.ShrinkBlock | code/src/memheap.c:423-496 | in place: a free block behind the shrunk one, merged with a free block after it, on both rings |
| MemHeapObjects.MemHeapObject.Resize | code/src/memheap.c:318-496 | the in-place part of realloc; on failure memory is unchanged |
| MemHeapObjects.MemHeapObject.ResizeBlock | code/src/memheap.c:318-496 | the block's bytes survive up to the smaller size, all others untouched |
| MemHeapObjects.MemHeapObject.MoveBlock | code/src/memheap.c:412-420 | all old bytes are at the new address, or nothing has changed |
| MemHeapObjects.MemHeapObject.Realloc | code/src/memheap.c:291-496 | in place: on success the first bytes, up to the smaller size, are at the address returned; on failure the old block is intact; all other live blocks are untouched |
| SmallMem.Conservation | code/src/mem.c:136-174 | bytes of used and of free blocks, headers included, add up to the heap |
| SmallMem.InitInv | code/src/mem.c:184-231 | one free block up to heap_end, lfree lowest |
| SmallMem.SearchFails | code/src/mem.c:279-285 | the first-fit search fails only if no block below the bound fits |
| SmallMem.NextFreeLowest | code/src/mem.c:344-351 | advancing lfree over used blocks ends at the lowest free block or heap_end |
| SmallMem.ForwardKeeps | code/src/mem.c:145-160 | merging with the next block keeps the structure and an lfree that was lowest |
| SmallMem.BackwardKeeps | code/src/mem.c:162-173 | so does merging with the block before |
| SmallMem.PlugKeeps | code/src/mem.c:136-174 | after both merges no neighbours are both free |
| SmallMemRuns.TakeKeepsInv | code/src/mem.c:285-351 | taking or splitting a block keeps the structure and an lfree that was lowest |
| SmallMemRuns.MallocKeepsInv | code/src/mem.c:246-374 | malloc succeeds if and only if a fitting block at or above lfree starts below the bound, and gives the lowest such block; failure changes nothing |
| SmallMemRuns.StrictBound | code/src/mem.c:279-281 | the bound excludes exactly one block: an exact fit at the very end of the heap |
| SmallMemRuns.FreeKeepsInv | code/src/mem.c:504-558 | free keeps the structure and an lfree that was lowest |
| SmallMemRuns.ShrinkKeepsInv | code/src/mem.c:430-454 | shrinking keeps the structure, with lfree a free block or heap_end |
| SmallMemRuns.ShrinkLowest | code/src/mem.c:430-454 | after shrinking lfree is lowest if and only if it lay before the block, or was the free block just behind it |
| SmallMemRuns.BlindAtEnd | code/src/mem.c:246-374 | with lfree at heap_end every malloc fails, whatever is free |
| SmallMemRuns.MallocStays | code/src/mem.c:246-374 | malloc neither moves nor shrinks any live block |
| SmallMemRuns.FreeStays | code/src/mem.c:504-558 | free neither moves nor shrinks any other live block |
| SmallMemRuns.ShrinkStays | code/src/mem.c:430-454 | shrinking neither moves nor shrinks any other live block |
| SmallMemRuns.MoveKeeps | code/src/mem.c:457-465 | moving keeps the structure and frees the old block, or changes nothing |
| SmallMemRuns.ReallocKeepsInv | code/src/mem.c:385-466 | realloc in all its branches keeps the structure, serves the request or says so, and moves no other block |
| SmallMemFits.MallocCrops | code/src/mem.c:290-341 | malloc hands out exactly the aligned size whenever the rest can be a block of its own, which is free then, and else less than a header and a smallest block more; that is also what is added to the used bytes |
| SmallMemFits.ResizeAnswers | code/src/mem.c:421-454 | in place a block stays as it is or shrinks to exactly the size asked for, the latter exactly if the rest is more than a header and a smallest block |
| SmallMemFits.ReallocAnswers | code/src/mem.c:385-465 | reallocation gives the same address exactly when it can stay in place, and otherwise what malloc gives |
| SmallMemFits.RunPeak | code/src/mem.c:310-341 | over any run, max_mem is the greatest number of bytes in use at any time |
| SmallMemRuns.StepKeepsInv | code/src/mem.c:246-558 | every call keeps the structure; malloc and free keep lfree lowest |
| SmallMemRuns.AnyRun | code/src/mem.c:246-558 | so does every run; in runs without realloc lfree is always the lowest free block |
| SmallMemObjects.SmallMemObject.constructor | code/src/mem.c:184-231 | the headers in memory represent the initial heap |
| SmallMemObjects.SmallMemObject.InsertHeader | code/src/mem.c:303-318 | next and prev offsets stay inverse round the new header |
| SmallMemObjects.SmallMemObject.RemoveHeader | code/src/mem.c:158-173 | next and prev offsets stay inverse over the removed header |
| SmallMemObjects.SmallMemObject.FindFit | code/src/mem.c:279-285 | the loop terminates and is the first-fit search |
| SmallMemObjects.SmallMemObject.AdvanceLfree | code/src/mem.c:344-351 | the loop ends at the next free block or heap_end |
| SmallMemObjects.SmallMemObject.TakeBlock | code/src/mem.c:285-351 | in place: split or taken whole, with statistics and lfree as the function on values has them |
| SmallMemObjects.SmallMemObject.PlugBlock | code/src/mem.c:136-174 | in place: both merges, with offsets and lfree as the function on values has them |
| SmallMemObjects.SmallMemObject.FreeAt | code/src/mem.c:538-556 | in place, with lfree and the statistics |
| SmallMemObjects.SmallMemObject.ShrinkBlock | code/src/mem.c:430-454 | in place: a free block behind the shrunk one, merged with a free block after it |
| SmallMemObjects.SmallMemObject.Malloc | code/src/mem.c:246-374 | in place; the bytes of every live block are untouched |
| SmallMemObjects.SmallMemObject.FreeBlock | code/src/mem.c:504-558 | by address; the bytes of all other live blocks are untouched |
| SmallMemObjects.SmallMemObject.ResizeBlock | code/src/mem.c:420-454 | the block's bytes survive up to the smaller size, all others untouched |
| SmallMemObjects.SmallMemObject.MoveBlock | code/src/mem.c:457-465 | the first bytes are at the new address, or nothing has changed |
| SmallMemObjects.SmallMemObject.Realloc | code/src/mem.c:385-466 | in place: contents preserved up to the smaller size, old block intact on failure, all other live blocks untouched |
| Pages.CanonicalForm | code/src/slab.c:246-332 | two free lists of the sorted, non-touching form with the same pages are the same list, so that what is allocated depends on the set of free pages alone |
| Pages.FitsIffFree | code/src/slab.c:246-280 | a stretch fits into one run if and only if all its pages are free |
| Pages.AllocPages | code/src/slab.c:246-280 | allocation fails only if no free stretch of that length exists, and else takes the lowest |
| Pages.FreePages | code/src/slab.c:282-332 | freeing adds exactly these pages and keeps the form, merging on both sides |
| Pages.FreesCommute | code/src/slab.c:282-332 | two frees in either order give the same list |
| Pages.FreeUndoesAlloc | code/src/slab.c:246-332 | freeing an allocation gives back exactly the list before it |
| Pages.StepKeepsInv | code/src/slab.c:246-332 | free and allocated pages always partition all pages, and allocations never overlap |
| Pages.AnyRun | code/src/slab.c:246-332 | so in any run |
| Pages.BackToOneRun | code/src/slab.c:337-344 | with everything freed the list is again the single run it started as |
| Pages.PageList.constructor | code/src/slab.c:337-344 | one run with all pages |
| Pages.PageList.PageAlloc | code/src/slab.c:246-280 | the loop is the first-fit allocation, from the front of the run it finds |
| Pages.PageList.PageFree | code/src/slab.c:282-332 | the loop is the coalescing free |
| SizeClass.SmallestClass | code/src/slab.c:411-469 | for all requests of 1 to 16383 the index is in range, determines the chunk size, and is the smallest class that holds the request |
| SizeClass.Monotone | code/src/slab.c:411-469 | classes grow with the request, and equal class means equal chunk size |
| SizeClass.Idempotent | code/src/slab.c:738-740 | the rounded size rounds to itself; it has the same index if and only if the request is at most 15360 |
| SizeClass.Waste | code/src/slab.c:411-469 | less than 8 bytes below 128, less than one eighth of the request above |
| Slab.ZoneFits | code/src/slab.c:640-660 | every class has at least three chunks in a zone, all behind the header and inside the zone |
| Slab.PopKeeps | code/src/slab.c:551-583 | the chunk handed out was in use by nobody, and the free count stays exact |
| Slab.PushKeeps | code/src/slab.c:861-873 | a chunk given back leaves the live ones and nothing else changes |
| Slab.AllFree | code/src/slab.c:885-886 | when the free count reaches the capacity no chunk is live |
| SlabHeap.HeaderFound | code/src/slab.c:826-859 | from any address inside a live chunk the page index leads to the header of its zone |
| SlabHeap.OneZone | code/src/slab.c:826-859 | no address is a live chunk of two zones |
| SlabHeap.MallocChunkKeeps | code/src/slab.c:549-591 | a chunk from an existing zone is new, of the right class, and zone_array keeps exactly the zones with free chunks |
| SlabHeap.OpenKeeps | code/src/slab.c:602-671 | so is the first chunk of a new or spare zone |
| SlabHeap.MallocLargeKeeps | code/src/slab.c:508-519 | a large request gets pages that were free, or there is no such stretch |
| SlabHeap.MallocKeepsInv | code/src/slab.c:488-684 | malloc hands out memory in use by nobody, of the smallest class; failure changes nothing and means that no stretch of the pages needed is free |
| SlabHeap.PushState | code/src/slab.c:856-877 | freeing a chunk takes away exactly this chunk, and puts a full zone back into zone_array |
| SlabHeap.RetireKeeps | code/src/slab.c:885-931 | a zone is taken out of use only without live chunks, so no chunk is lost |
| SlabHeap.ReleasePages | code/src/slab.c:907-930 | the pages of a zone too many go back, all and only they |
| SlabHeap.FreeLargeKeeps | code/src/slab.c:826-851 | a large block gives back exactly the pages it was given |
| SlabHeap.FreeKeepsInv | code/src/slab.c:793-931 | free takes away exactly the block at the address and keeps everything else |
| SlabHeap.AnyRun | code/src/slab.c:488-931 | every run of malloc and free keeps zones, page index and pages consistent |
| SlabHeap.InitInv | code/src/slab.c:354-405 | the heap starts consistent |
| SlabAlign.ChunkAligned | code/src/slab.c:640-660 | chunks of a power-of-two class are aligned to it up to a page, and above if and only if the zone starts at an even page |
| SlabAlign.ChunkServed | code/src/slab.c:488-684 | a small request is served from the first zone with free chunks of its class, else from a spare zone, else from the run the page allocator finds, and fails exactly without any |
| SlabAlign.LargeServed | code/src/slab.c:508-519 | a large block starts at the run the page allocator finds, and fails exactly without one |
| SlabAlign.FailsExactly | code/src/slab.c:488-684 | malloc gives null exactly for size zero or when no page can serve the request |
| SlabAlign.PowerOfTwoAligned | code/src/slab.c:159-165 | the documented alignment of power-of-two sizes, from the state before the call: it holds up to a page, and above it exactly if the page that will serve the request has a number that is a multiple of the size in pages |
| SlabAlign.OddPages | code/src/slab.c:508-519 | a heap whose two-page block is not aligned |
| SlabCalls.LimitIs | code/src/slab.c:389-391 | requests from a quarter of a zone, or from 16 KB, go to pages |
| SlabCalls.LargeFits | code/src/slab.c:508-512 | a large block has the fewest pages that hold it; exactly sizes in the last page of the address range wrap to none |
| SlabCalls.OffsetLeast | code/src/slab.c:640-660 | chunks begin at the first multiple behind the header: of their size if that is a power of two, else of eight |
| SlabCalls.ZoneFull | code/src/slab.c:652-660 | a zone has as many chunks as fit, one more would not |
| SlabCalls.FreshFirst | code/src/slab.c:565-569 | while there are chunks never used, a zone gives them, in the order of their addresses |
| SlabCalls.LastFreedFirst | code/src/slab.c:571-578 | after that it gives the chunk freed last |
| SlabCalls.MallocAnswers | code/src/slab.c:488-684 | the zone that serves a small request is the only one that changes and gives its next chunk; the first spare zone is used only if the class has no free chunk, and pages only if there is no spare zone either |
| SlabCalls.LargeAnswers | code/src/slab.c:508-545 | a large request takes exactly its pages, marks the first, and changes no zone and no other block |
| SlabCalls.FreeAnswers | code/src/slab.c:856-931 | a freed chunk: its zone is retired exactly if no other chunk of it is in use and another zone of its class has free chunks; it is kept as spare unless there are two, and then exactly its pages go back |
| SlabCalls.FreeLargeAnswers | code/src/slab.c:826-851 | a freed large block: exactly its pages are free again, and no zone and no other block changes |
| SlabObjects.SlabObject.constructor | code/src/slab.c:354-405 | the initial heap satisfies the invariant |
| SlabObjects.SlabObject.TakeStretch | code/src/slab.c:246-280 | the page allocator's step, with the owner recorded |
| SlabObjects.SlabObject.GiveStretch | code/src/slab.c:282-332 | the page allocator's step back |
| SlabObjects.SlabObject.MarkSmall | code/src/slab.c:627-634 | the loop marks every page of the zone with its distance from the first |
| SlabObjects.SlabObject.ClearMarks | code/src/slab.c:916-922 | the loop clears every page of the zone |
| SlabObjects.SlabObject.Open | code/src/slab.c:637-664 | in place: a zone at this page with all chunks but the first free, at the front of its list |
| SlabObjects.SlabObject.TakeChunk | code/src/slab.c:549-583 | in place, never used chunks first, then the free chunk list |
| SlabObjects.SlabObject.Malloc | code/src/slab.c:488-684 | in place, the malloc on values in all branches: pages, a chunk of a zone, a spare zone, a new zone |
| SlabObjects.SlabObject.Unlink | code/src/slab.c:893-896 | the loop finds the zone in its list and takes it out |
| SlabObjects.SlabObject.RetireZone | code/src/slab.c:893-931 | in place: off its list, spare, and the pages of a third spare zone given back |
| SlabObjects.SlabObject.FreeInZone | code/src/slab.c:861-931 | in place: the chunk on the free list of its zone, the zone back in its list or retired |
| SlabObjects.SlabObject.Free | code/src/slab.c:793-931 | in place, by the page index |
| Ffs.TableRight | code/src/kservice.c:1193-1212 | every entry of the table is the lowest set bit of its index |
| Ffs.FirstSetIsLowest | code/src/kservice.c:1223-1237 | for every word, zero exactly for zero, else one more than its lowest set bit |
| Ffs.SetBitAt | code/src/scheduler.c:297-300 | setting a bit sets that bit alone |
| Ffs.ClearBitAt | code/src/scheduler.c:340-348 | clearing a bit clears that bit alone |
| Ready.Lookup1 | code/src/scheduler.c:205-206 | with up to 32 priorities the lookup gives the most urgent non-empty queue |
| Ready.Lookup2 | code/src/scheduler.c:208-211 | with up to 256 priorities the two-stage lookup does |
| Ready.OneLevelUpdate | code/src/scheduler.c:297-300 | the bit is right again after any change to one queue |
| Ready.TwoLevelUpdate | code/src/scheduler.c:340-348 | byte and group bit are right again after any change to one queue |
| Ready.MoveHome | code/src/thread.c:485-526 | a priority change moves the thread from its old queue to its new one |
| Ready.LockedUntilLastExit | code/src/scheduler.c:358-400 | up to 32768 nested locks are open again exactly after as many exits, the decrement wrapping as the increment did |
| Ready.LockedIffFits | code/src/scheduler.c:358-400 | for every depth: the scheduler stays locked until the last exit, and only until then, if and only if the depth is at most 32768 |
| Ready.Scheduler.constructor | code/src/scheduler.c:120-147 | empty queues, no bits |
| Ready.Scheduler.SetPriority | code/src/thread.c:212-219 | the masks belong to the priority |
| Ready.Scheduler.Insert | code/src/scheduler.c:267-304 | the thread is last in its queue, and the bitmap refines the queues |
| Ready.Scheduler.Unlink | code/src/scheduler.c:313-353 | the thread is off its queue, the bit goes with the last |
| Ready.Scheduler.Highest | code/src/scheduler.c:205-212 | the most urgent non-empty queue, by whichever lookup is compiled in |
| Ready.Scheduler.Schedule | code/src/scheduler.c:191-258 | unlocked, the head of the most urgent queue runs, and no ready thread is more urgent; locked, nothing changes |
| Ready.Scheduler.ChangePriority | code/src/thread.c:485-526 | a ready thread moves to the end of its new queue, and the bitmap refines the queues |
| Ready.Scheduler.EnterCritical | code/src/scheduler.c:358-373 | from any depth below 32768 the scheduler is locked, and the exit that follows puts the counter back |
| Ready.Scheduler.ExitCritical | code/src/scheduler.c:378-400 | the last exit schedules, the others do not |
| RoundRobin.NextKeepsInv | code/src/clock.c:83-105 | ticks, with the yield at the end of a slice, and arrivals keep every slice between one tick and full |
| RoundRobin.TickCloser | code/src/clock.c:83-105 | each tick brings every waiting thread exactly one tick closer |
| RoundRobin.RunsAfterWait | code/src/clock.c:83-105 | over any run of ticks and arrivals, a thread has run if and only if as many ticks have passed as its wait |
| RoundRobin.WaitBounded | code/src/thread.c:377-411 | the wait is at most the sum of the full slices ahead |
| RoundRobin.RunKeepsInv | code/src/clock.c:83-105 | from the empty queue on, every run keeps every slice between one tick and full |
| RoundRobin.WholeTurn | code/src/clock.c:83-105 | the running thread keeps running for exactly the ticks it has left and then waits behind all others with a full slice |
| RoundRobin.Round | code/src/clock.c:83-105 | from full slices, as many ticks as all slices together give every thread of the queue exactly its slice and bring back the state they started from |
| RoundRobin.Arrival | code/src/scheduler.c:267-304 | a thread that becomes ready waits behind all others with what it has left of its slice, and nobody else's wait changes |
| RoundRobin.Clock.Yield | code/src/thread.c:377-411 | the running thread is last and all others move up by one, in order |
| RoundRobin.Clock.TickIncrease | code/src/clock.c:83-105 | the tick wraps at 32 bits and the slice step is taken in place |
| Threads.StepKeepsInv | code/src/thread.c:47-657 | every step keeps every thread on at most one list, one its state allows, and timers only on suspended threads |
| Threads.RunKeepsInv | code/src/thread.c:47-657 | so does every run |
| Threads.InitialInv | code/src/thread.c:110-132 | it holds for threads that are initialised only |
| Threads.TimeoutFindsSuspended | code/src/thread.c:636-657 | in any run a running thread timer belongs to a suspended thread, so the assertion in the timeout never fails |
| Threads.OnItsListOnly | code/src/thread.c:47-657 | in any run a thread is on no list but the one its state allows |
| Threads.SuspendOnKeeps | code/src/ipc.c:92-135 | suspending on an object keeps this, with or without a timer |
| Threads.ExitKeeps | code/src/thread.c:47-82 | exiting keeps this, for static and for created threads |
| Threads.StepCollides | code/src/thread.c:595-627 | for any number of overlapping resumes: a step leaves every thread once in at most one list that its state allows, if and only if it is no end of a resume that finds its thread in a list already |
| Threads.ConsistentIffApart | code/src/thread.c:595-627 | so over any run of any interleaving: the lists are consistent throughout if and only if no resume ends on a thread that is in a list |
| Threads.OneAtATime | code/src/thread.c:595-627 | which never happens when no thread is resumed while another resume of it is in its unlocked gap |
| Threads.ResumedTwice | code/src/thread.c:595-627 | resuming a suspended thread, and completing with no step between all resumes of it then under way, keeps the invariant if and only if none was under way |
| Threads.StartedTwice | code/src/thread.c:595-627 | from initialised threads: a thread resumed by another while it is being started ends up twice in its ready queue |
| ThreadCalls.StartupAnswers | code/src/thread.c:203-226 | a started thread is being resumed with its initial priority; as in all of these, every other thread keeps its fields and its order in every list |
| ThreadCalls.ResumeAnswers | code/src/thread.c:595-627 | a resume is refused exactly for a thread that is not suspended; else the thread is ready, last of its priority, with its timer stopped |
| ThreadCalls.ResumeTakeAnswers | code/src/thread.c:595-621 | up to the gap: off its list, timer stopped, still suspended |
| ThreadCalls.ResumePutAnswers | code/src/thread.c:623-627 | behind the gap: ready, last of its priority |
| ThreadCalls.SuspendAnswers | code/src/thread.c:554-585 | a suspend is refused exactly for a thread that is not ready; else the thread is in no list and its timer stopped |
| ThreadCalls.SleepAnswers | code/src/thread.c:421-440 | a sleeping thread is suspended in no list with its timer running |
| ThreadCalls.SuspendOnAnswers | code/src/ipc.c:92-135 | a thread that waits on an object is in its list alone, at the end or before the first less urgent waiter, with a timer exactly if the wait is limited |
| ThreadCalls.TimeoutAnswers | code/src/thread.c:636-657 | a timeout makes its thread ready, last of its priority, with the error |
| ThreadCalls.PriorityAnswers | code/src/thread.c:485-526 | a ready thread goes behind all others of its new priority; any other gets it where it is |
| ThreadCalls.YieldAnswers | code/src/thread.c:377-411 | a ready thread goes behind all others of its priority; any other stays where it is |
| ThreadCalls.ExitAnswers | code/src/thread.c:47-82 | an exiting thread is closed with its timer stopped, first of the defunct threads if it was created and else in no list |
| Threads.ThreadTable.SuspendThread | code/src/thread.c:554-585 | in place, refusing threads that are not ready |
| Threads.ThreadTable.ResumeBegin | code/src/thread.c:595-621 | in place, up to the unlocked gap, refusing threads that are not suspended |
| Threads.ThreadTable.ResumeEnd | code/src/thread.c:623-627 | in place, behind the gap |
| Threads.ThreadTable.SuspendOnList | code/src/ipc.c:92-135 | in place: off the ready queue, into the wait list, timer armed |
| Threads.ThreadTable.TimeoutThread | code/src/thread.c:636-657 | in place: error, off the list, ready |
| Threads.ThreadTable.Control | code/src/thread.c:485-526 | in place: priority change of ready and of other threads |
| Threads.ThreadTable.YieldThread | code/src/thread.c:377-411 | in place: the end of its own ready queue, unless it is alone there |
| Threads.ThreadTable.ExitThread | code/src/thread.c:47-82 | in place: closed, and defunct if it was created |
| Threads.ThreadTable.InsertThread | code/src/scheduler.c:267-304 | in place: ready, last of its queue |
| FinshCode.DwordRoundTrip | code/components/finsh/finsh.h:38-55 | a word written byte by byte is read back |
| FinshCode.LittleEndian | code/components/finsh/finsh.h:48-55 | a word is its four bytes, least significant first |
| FinshVm.LoadAfterStore | code/components/finsh/finsh_ops.c:375-434 | a stored word is loaded back |
| FinshVm.StoreOnly | code/components/finsh/finsh_ops.c:375-434 | a store changes the four bytes of its word, least significant first, and no other byte, and fails exactly if one of them does not exist |
| FinshVm.StepLocal | code/components/finsh/finsh_vm.c:47-72 | an instruction does not depend on the code behind it |
| FinshVm.ExecAppend | code/components/finsh/finsh_vm.c:47-72 | running two pieces of code is running one after the other, and a trap stays a trap |
| FinshVm.ExecNoops | code/components/finsh/finsh_ops.c:48-52 | the zeroed rest of the text segment does nothing |
| FinshCorrect.LeafTypeComputed | code/components/finsh/finsh_compiler.c:759-901 | the attribute pass gives every node the type of its leftmost leaf |
| FinshCorrect.CodeOfExpr | code/components/finsh/finsh_compiler.c:43-757 | for every well-typed expression tree the attribute pass followed by code generation emits the code of the expression, whatever follows as sibling |
| FinshCorrect.CodeOfArgs | code/components/finsh/finsh_compiler.c:285-308 | arguments of a call are emitted in order |
| FinshCorrect.OperatorCode | code/components/finsh/finsh_compiler.c:43-757 | an operator emits its operands' code, then its own |
| FinshCorrect.RunExpr | code/components/finsh/finsh_compiler.c:43-757 | for every typed expression, from any stack with room, the code of an expression pushes exactly its value, performs exactly its stores, leaves the stack below untouched, and traps exactly when evaluation does |
| FinshCorrect.RunArgs | code/components/finsh/finsh_ops.c:444-569 | the code of arguments pushes exactly their values, in order |
| FinshCorrect.RunBin | code/components/finsh/finsh_ops.c:42-45 | a binary operator replaces two cells by its result |
| FinshCorrect.RunStoreReload | code/components/finsh/finsh_compiler.c:311-371 | an assignment stores, and leaves the stored value on the stack |
| FinshCorrect.RunCall | code/components/finsh/finsh_ops.c:444-569 | a call hands over exactly its arguments and replaces function and arguments by the result |
| FinshCorrect.RunPreStep | code/components/finsh/finsh_compiler.c:373-532 | ++ and -- before a variable store and yield the new value |
| FinshCorrect.RunPostStep | code/components/finsh/finsh_compiler.c:535-711 | ++ and -- behind a variable store the new value and yield the old one |
| FinshProgram.RunLine | code/components/finsh/finsh_compiler.c:903-937 | a line of statements leaves the last value alone at the bottom of the stack, with the stores of all |
| FinshProgram.SiblingApart | code/components/finsh/finsh_compiler.c:919-933 | the attributes of a statement are those it would have alone, so cutting it off its siblings loses nothing |
| FinshNodes.DecorateNode | code/components/finsh/finsh_compiler.c:759-901 | in place, the attributes of one node |
| FinshNodes.TypeCheckNodes | code/components/finsh/finsh_compiler.c:759-901 | the recursion over linked nodes, in place, is the attribute pass on the tree they form |
| FinshShell.Shell.EmitByte | code/components/finsh/finsh_compiler.c:39-39 | one byte at the compile pointer, the rest of the segment untouched |
| FinshShell.Shell.EmitDword | code/components/finsh/finsh_compiler.c:41-41 | four bytes, low first |
| FinshShell.Shell.Compile | code/components/finsh/finsh_compiler.c:43-757 | the recursion over linked nodes emits the code of their tree at the compile pointer and nothing else |
| FinshShell.Shell.EmitNode | code/components/finsh/finsh_compiler.c:51-749 | the switch on the node type emits the node's own code |
| FinshShell.Shell.CompileStatement | code/components/finsh/finsh_compiler.c:919-933 | one turn of the loop emits one statement with its pop and moves to the next |
| FinshShell.Shell.CompilerRun | code/components/finsh/finsh_compiler.c:903-937 | the segment holds the code of the line, then nothing but no-ops |
| FinshShell.Shell.BinDword | code/components/finsh/finsh_ops.c:42-45 | the operator step on the stack in place |
| FinshShell.Shell.StoreTop | code/components/finsh/finsh_ops.c:428-434 | the store step in place |
| FinshShell.Shell.CallTop | code/components/finsh/finsh_ops.c:444-569 | the call step in place |
| FinshShell.Shell.StepOnce | code/components/finsh/finsh_vm.c:59-71 | fetch, decode, execute: one step of the machine, in place |
| FinshShell.Shell.VmRun | code/components/finsh/finsh_vm.c:47-72 | the loop terminates and executes the segment |
| FinshShell.Shell.RunLineOnShell | code/components/finsh/finsh_compiler.c:903-937 | for every well-typed line that fits, compiling and running computes its value and its stores, with one cell left on the stack |
| FinshTyping.RunsRightIffTyped | code/components/finsh/finsh_compiler.c:43-901 | an operator of any kind over typed operands runs right if and only if the leftmost leaf of its first operand is not a call: otherwise it emits nothing of its own |
| FinshLong.DivMod | code/components/finsh/finsh_ops.c:115-137 | division and remainder of the 32-bit long truncate toward zero and recompose |
| FinshLong.Defined | code/components/finsh/finsh_ops.c:42-45 | exactly division and remainder by zero and shifts by 32 or more have no result |
| FinshLong.Arithmetic | code/components/finsh/finsh_ops.c:69-161 | without overflow sum, difference and product are those of the signed numbers |
| FinshLong.AddUndoesSub | code/components/finsh/finsh_ops.c:69-95 | with overflow too: adding undoes subtracting, and a sum is one modulo 2^32 |
| FinshLong.BitOperators | code/components/finsh/finsh_ops.c:179-227 | and, or and exclusive or, bit by bit |
| FinshLong.Complement | code/components/finsh/finsh_ops.c:245-250 | the complement turns every bit |
| FinshLong.Shifts | code/components/finsh/finsh_ops.c:267-293 | a shift to the left multiplies modulo 2^32, one to the right divides rounding down |
| FinshMeaning.Operators | code/components/finsh/finsh_compiler.c:43-757 | both operands are evaluated, the left one first, and combined in this order as signed numbers |
| FinshMeaning.Assigns | code/components/finsh/finsh_compiler.c:311-371 | an assignment yields the value of its right-hand side, leaves it in the variable, writes nothing else, and fails exactly if the variable does not exist |
| FinshMeaning.StepsByOne | code/components/finsh/finsh_compiler.c:373-711 | `++x` and `--x` yield the new value, `x++` and `x--` the old one, and all leave the new one, modulo 2^32, in `x` and write nothing else |
| FinshMeaning.Pointers | code/components/finsh/finsh_compiler.c:718-748 | `*&x` is `x`, `*&x = e` is `x = e`, and `&*e` is `e` |
| FinshMeaning.Complements | code/components/finsh/finsh_ops.c:245-250 | ~ turns every bit of its operand |
| FinshMeaning.Calls | code/components/finsh/finsh_compiler.c:285-308 | a call hands over its arguments in the order in which they are written |

## Left out

- Semaphores, memory pools: the same wait lists with a counter or a free list, nothing harder than mailboxes.
- Deletion and detaching of objects and of threads with waiters still in flight, thread creation and clean-up of defunct threads.
- Object names and containers, hooks, debug output, module heaps, stack checks, context switching: a switch sets the current thread.
- Timer.StartKeepsInv, Timer.StopKeepsInv: the two parts of each call as one step, as a callback or a single caller runs them; other calls between the parts are the subject of TimerExpiry.StartInterleaved and TimerExpiry.StopInterleaved, all at one tick.
- TimerEnds.EndsUnlessSpinning: callbacks that start no zero-tick timers, and due timers that are activated; TimerEnds.EndsUnlessRepeating has the condition for all callbacks.
- TimerExpiry.FireTurns, TimerExpiry.CheckFires: callbacks that start no zero-tick timer and leave no one-shot timer of their own started, the latter being what TimerExpiry.SelfRestart is about.
- Soft timers and their thread, `rt_tick_set`, `rt_timer_control`: periods and delays are fixed; timer callbacks do nothing here but start and stop timers, at one tick.
- Calls that block while the scheduler is locked, and interrupt nesting beyond the non-blocking send of an interrupt routine.
- Changing the priority of a suspended thread from outside does not sort its wait list again; the order of wait lists by priority is proved for the mutex only, whose waiters nobody else changes.
- Several mutexes held by one thread: the code remembers one priority for each mutex and restores them in release order.
- `rt_thread_resume` called on an event waiter by a third party; the event model has the wake loop, timeouts and reset.
- Heap semaphores: each locked region of an allocator is one step. The failure path of `rt_malloc` in slab.c releases its semaphore twice. The test of `available_size` in memheap.c, made before the lock, is taken together with the search behind it.
- `rt_malloc` of memheap.c over several heaps, `rt_calloc`, `rt_realloc` of slab.c (allocate, copy, free), `rt_memory_info`.
- Small-memory heaps of fewer than 12 payload bytes, where the search bound of mem.c underflows.
- The placement of the page index in memory by `rt_system_heap_init` of slab.c: only the pages it takes are modelled.
- finsh: lexer, parser and node heap; char and short variables and operators; `void*` variables; `++` and `--` on anything but variables; programs longer than the text segment; memory that overlaps the machine's own stack, code or symbol table.
- FinshCorrect.RunExpr: typed expressions only, as FinshTyping.RunsRightIffTyped shows that an operator over an untyped first operand is compiled wrongly; stores and loads go through a partial byte memory; an access outside it traps in the model where the C code has undefined behaviour, and so does a stack overflow.
- Finsh system calls are arbitrary functions of function address, arguments and memory.
- TimerCalls.FiresEvery: delays of at least one tick, and no call on the timer in the run it is about.
- RoundRobin.RunsAfterWait, RoundRobin.Round: no more urgent thread becomes ready, nobody blocks or yields early, and the scheduler is not locked.
- Threads.StepKeepsInv: one resume of a thread at a time; overlapping ones are the subject of Threads.ConsistentIffApart. The unlocked state tests of `rt_thread_suspend` and `rt_thread_resume` are one step with what follows them.
- Event flags are sets of bit numbers instead of 32-bit words; bitwise and, or and complement are set operations.
