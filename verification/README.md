# Grommet, verified

Grommet is a key-affine, thread-per-core scheduler. It is built from small
hand-written structures, each of which makes a strong claim that tests and
bounded model checking reach only on finite cases. This project models those
structures in Dafny and proves the claims for every input, every run and, where
threads share state, every interleaving.

| part | files | what is proved |
|---|---|---|
| timer wheel | `Bits`, `TimerPlacement`, `TimerLists`, `TimerWheel` | eight levels of 64 slots over intrusive lists refine a map from handle to timer; no timer is early, late or lost while the cursor jumps; the cached next event is exact |
| MPSC ring | `Ring` | in every interleaving nothing is lost, doubled or overwritten, no two threads share a cell, and every refusal was really full |
| scheduler book | `Book`, `BookInvariant`, `BookRuns`, `BookTheorems`, `BookLaws` | the full structural invariant, one place per item, FIFO per key, linear state, the starvation bound, exact expiry and exact eviction |
| scheduler as stored | `QueueSlab`, `SchedulerLinks`, `SchedulerTies`, `Scheduler` | the key map, the slab of queues and the idle list threaded through the slots refine the book, operation by operation |
| outstanding set | `ReadyBits`, `HarvestOrder`, `HarvestSteps`, `Outstanding` | no mark is lost under any interference, polls go round in strict circular order, and a capped harvest starves no slot |
| wake protocols | `WakerCell`, `Mailbox`, `Waiters` | one thread in the waker cell and no lost wake; no item is slept on; the wait list is a FIFO with cancellation |
| shard reactor | `ShardEffects`, `ShardSteps`, `ShardLaws`, `ShardTurns`, `ShardClosing`, `ShardEnding`, `ShardOneCall`, `ShardLedger`, `Shard` | every stage of a turn does exactly what a law in queues, futures and clocks says; over whole runs futures equal in-flight keys plus flushes and always fit and the live index is exact; a shard's run is a run of the book; exactly when a shard ends, and with what left behind |
| accounts example | `Accounts` | each request id is applied at most once under any faults; over any run a replayed debit or credit answers the balance it first made, and balances are what the applied calls add up to |

`Options`, `Sequences` and `MachineWords` hold an option type, two notions about
sequences and the widths of stored words.

How the model is laid out:

- Code that changes things step by step is imperative here too: `Wheel`, `Slab`,
  `Scheduler`, `Outstanding`, `Waiters`, `Shard`, `SimStore` and
  `AccountProcessor` are classes whose methods follow the source's own steps and
  loops, proved against functions and predicates on plain values.
- Code that several threads run at once is a state machine over its atomic
  steps, sequentially consistent, with any number of producers, senders or
  wakers. Inside a harvest, `Outstanding.Interfere` stands for any number of
  steps of any number of markers and is called between any two of the owner's
  own steps.
- Machine words used as bit sets are sets of bit positions. Times are natural
  numbers; ticks, generations, versions, balances and list links keep their
  64-bit and 32-bit limits where the source checks them.
- What the source leaves to the outside is a parameter or a free choice: the
  wheel's identity, the clock, how a polled future answers, which futures have
  finished, and each fault.

Five places where the code and its own words, or the obvious wish, differ:

- `waiters.rs:46-48` says the order queue is compacted when tombstones come to
  outnumber the live entries, so that a burst of cancellations is given back. The
  guard at `waiters.rs:144` compares the whole queue with twice the free slots.
  `Compact` says exactly when it compacts; `Park` and `Cancel` say exactly when
  they leave tombstones outnumbering the live entries, which is when they did
  before the guard and the guard let them be. `BurstOfCancellations` is a run that
  ends with ten entries and nobody waiting, never given back.
- A ready, occupied slot is polled within its circular distance plus one polls
  only from a harvest that finds its word announced. A marker that has set its
  bit and not yet announced the word hides the slot; `ReadyIsOwed` gives the
  condition, `MarkedButUnannounced` a state in which it fails, and
  `UnannouncedIsNotPolled` shows that the slot is then indeed passed over.
- The last sender's ring wakes a sleeping receiver if and only if it comes after
  that receiver's registration (`LastRingReaches`); `LastRingCanBeMissed` is a
  run in which it comes before and the receiver sleeps on.
- `shard.rs:601-602` says that once the mailbox is closed and nothing is in
  flight everything queued has been dispatched. That holds of work without
  deadlines when every class has a budget of at least one (`EndLeavesNothing`).
  Otherwise it fails in two ways. One pass over the classes can move a key to a
  ring it has already visited (`EndCanLeaveWork`), and a class whose budget is
  zero is never dispatched from, deadlines or none (`EndCanLeaveUnbudgeted`).
  `EndsWithWorkExactly` gives the condition on the state the last turn starts in:
  nothing out, no waiting key's queue walked to an item that runs, and some key's
  walked to a class already passed or without a budget.
- A replay of an applied request is a duplicate exactly when it asks for the
  recorded mutation on the recorded account. For a revaluation the mutation
  depends on the balance it is worked out from, so a later replay can be a
  conflict (`RevaluationCanConflict`).

## Model

| member | source | states |
|---|---|---|
| TimerPlacement.DifferingBitWindow | crates/grommet-core/src/timer.rs:648-659 | two ticks' highest differing bit is below bit k exactly when they agree from bit k up, for all ticks: the meaning of the level choice |
| TimerPlacement.PlacementIsPlaced | crates/grommet-core/src/timer.rs:648-659 | for every reachable deadline, filing lands strictly ahead of the cursor at its level, and below the top level in the cursor's own rotation; an overdue one lands in the slot about to fire |
| TimerPlacement.WakeupClosedForm | crates/grommet-core/src/timer.rs:685-697 | the rotate-and-wrap computation of a slot's wakeup is the next boundary congruent to the slot, capped at the top of u64 |
| TimerPlacement.PlacedWakeup | crates/grommet-core/src/timer.rs:685-697 | a slot's wakeup is the tick at which every timer in it needs attention: never behind the cursor, never after the later of its deadline and the cursor |
| TimerPlacement.SkipKeepsPlaced | crates/grommet-core/src/timer.rs:593-621 | jumping the cursor over an empty range leaves every timer placed and due at the same tick |
| TimerPlacement.LandingArrives | crates/grommet-core/src/timer.rs:593-621 | at a timer's due tick it is either in the level-0 slot about to fire or in a coarse slot about to be broken up |
| TimerPlacement.CascadeDescends | crates/grommet-core/src/timer.rs:728-743 | breaking up a slot the cursor has reached moves each of its timers to a strictly lower level |
| TimerPlacement.OnlyTopLevelWraps | crates/grommet-core/src/timer.rs:648-697 | a timer still ahead can share the cursor's own slot at level 7 only |
| TimerPlacement.CircularOrder | crates/grommet-core/src/timer.rs:699-720 | within a level, circular distance from the cursor orders wakeups |
| Bits.RotationFindsNearest | crates/grommet-core/src/timer.rs:699-720 | trailing zeros of a word rotated to the cursor name the occupied slot that comes up first |
| TimerLists.FileKeepsWired | crates/grommet-core/src/timer.rs:661-682 | pushing an entry on a slot's list keeps every list doubly linked, disjoint and complete |
| TimerLists.UnlinkKeepsWired | crates/grommet-core/src/timer.rs:778-796 | cutting an entry out of any position keeps every list doubly linked, disjoint and complete |
| TimerLists.TakeKeepsWired | crates/grommet-core/src/timer.rs:771-776 | detaching a whole list leaves the others as they were |
| TimerWheel.LevelWakeup | crates/grommet-core/src/timer.rs:699-720 | one level's share of the scan finds the least wakeup of its occupied slots |
| TimerWheel.ComputeNextEvent | crates/grommet-core/src/timer.rs:699-720 | the scan returns the least wakeup of any occupied slot, and the empty sentinel exactly when there is none |
| TimerWheel.LeastWakeupIsNext | crates/grommet-core/src/timer.rs:685-726 | over all wheels, the least slot wakeup and the least due tick of a live timer are the same number |
| TimerWheel.EventLowersWeight | crates/grommet-core/src/timer.rs:593-621 | every event fires a timer or moves one down, strictly lowering the sum of level + 1 |
| TimerWheel.WeightBounded | crates/grommet-core/src/timer.rs:593-621 | that sum is at most eight for each live timer |
| TimerWheel.UnderwayStep | crates/grommet-core/src/timer.rs:593-621 | appending one event's burst keeps the emission exact and in order so far |
| TimerWheel.UnderwayEnds | crates/grommet-core/src/timer.rs:593-621 | when nothing left is due by the target, the emission is exactly what an advance owes |
| TimerWheel.Wheel.constructor | crates/grommet-core/src/timer.rs:322-352 | a new wheel stands for the empty map |
| TimerWheel.Wheel.TryInsertAt | crates/grommet-core/src/timer.rs:479-495 | the three refusals hold exactly when the code's conditions do, full, past the last usable tick or 2^48 ticks and more ahead, and change nothing; success adds exactly one entry under a handle never issued before |
| TimerWheel.Wheel.Cancel | crates/grommet-core/src/timer.rs:519-540 | a live handle's token comes back and exactly its entry goes; a stale or foreign handle changes nothing |
| TimerWheel.Wheel.RescheduleAt | crates/grommet-core/src/timer.rs:542-565 | exactly the named entry's deadline changes, under the same handle; each refusal holds exactly when the handle is dead or the deadline past the last usable tick or 2^48 ticks ahead |
| TimerWheel.Wheel.AdvanceTo | crates/grommet-core/src/timer.rs:593-621 | emits exactly the timers with deadline at most the target, once each, in the order of the later of deadline and starting cursor, visiting at most eight events a live timer |
| TimerWheel.Wheel.RunEvent | crates/grommet-core/src/timer.rs:593-621 | one event emits exactly the timers due at its own tick and leaves the wheel exact again |
| TimerWheel.Wheel.File | crates/grommet-core/src/timer.rs:661-682 | files a loose entry where its deadline belongs and lowers the cached event to its slot's wakeup |
| TimerWheel.Wheel.Unlink | crates/grommet-core/src/timer.rs:778-796 | takes a filed entry off its list and clears the occupancy bit when it was alone |
| TimerWheel.Wheel.Take | crates/grommet-core/src/timer.rs:771-776 | detaches exactly the live entries filed in a slot |
| TimerWheel.Wheel.Cascade | crates/grommet-core/src/timer.rs:728-743 | after breaking up the reached slots, coarsest first, every live timer is placed again and none rose a level |
| TimerWheel.Wheel.Fire | crates/grommet-core/src/timer.rs:745-769 | empties the cursor's slot: exactly the timers whose deadline the cursor has reached |
| TimerWheel.Wheel.Allocate | crates/grommet-core/src/timer.rs:799-815 | hands out a position under a generation it never had |
| TimerWheel.Wheel.Release | crates/grommet-core/src/timer.rs:817-833 | frees the position, or retires it when its generation is used up |
| TimerWheel.Wheel.NextEventIsExact | crates/grommet-core/src/timer.rs:464-473 | the cached event is the least wakeup of any occupied slot, not behind the cursor, at most the later of deadline and cursor of every live timer, and the sentinel exactly when the wheel is empty |
| TimerWheel.Wheel.LiveHandlesWereIssued | crates/grommet-core/src/timer.rs:637-646 | every live handle was issued and the live count is the size of the map |
| TimerWheel.Wheel.LiveIndex | crates/grommet-core/src/timer.rs:637-646 | a handle names a position exactly when it is in the map |
| TimerWheel.RawRoundTrip | crates/grommet-core/src/timer.rs:135-175 | decoding inverts encoding, and whatever decodes encodes back to the same word |
| TimerWheel.TicksAreExact | crates/grommet-core/src/timer.rs:378-394 | rounding a time down or up to ticks is exact, and fails exactly when the tick would be past the last usable one |
| TimerWheel.NeverEarlyUnderATickLate | crates/grommet-core/src/timer.rs:378-394 | with deadlines rounded up and observations rounded down a timer is never early, and late by less than a tick |
| RingPositions.AdvanceCounts | crates/grommet-core/src/ring.rs:127-140 | advancing a position word counts one abstract position up, for every capacity, power of two or not |
| RingPositions.FreeIsNotPublished | crates/grommet-core/src/ring.rs:127-140 | in one slot a free stamp never equals a published one, in any lap |
| RingProtocol.StampMeaning | crates/grommet-core/src/ring.rs:203-287 | what the two tests on a loaded stamp say about the position: free for this lap, or still full with the previous one |
| RingProtocol.StepKeeps | crates/grommet-core/src/ring.rs:203-342 | every atomic step of every producer and of the consumer, spurious exchange failures included, keeps the ring's invariant |
| RingProtocol.Reachable | crates/grommet-core/src/ring.rs:203-342 | every state of every run satisfies it |
| RingProtocol.CellsAreExclusive | crates/grommet-core/src/ring.rs:203-342 | no two threads are in the same value cell, and a claimed cell is empty until written |
| RingProtocol.PoppedIsPrefix | crates/grommet-core/src/ring.rs:203-342 | what was popped is a prefix of what was pushed, in claim order, at most a capacity behind |
| RingProtocol.ClaimsGrow | crates/grommet-core/src/ring.rs:203-342 | a position's value never changes and nothing is popped twice, over whole runs |
| RingProtocol.RefusedWasFull | crates/grommet-core/src/ring.rs:258-277 | every refused push saw, at an instant during its call, exactly capacity positions claimed and unconsumed |
| RingProtocol.SinceIsTheStart | crates/grommet-core/src/ring.rs:203-220 | the call's recorded start is where it began, so that instant is inside the call |
| RingProtocol.PopFindsPublished | crates/grommet-core/src/ring.rs:318-355 | a pop finds nothing exactly when the head position is unclaimed or not yet published |
| RingProtocol.EnteredFindsValue | crates/grommet-core/src/ring.rs:318-342 | a consumer that saw the head published finds that position's value in the cell, and takes it |
| Book.ExpiredHeads | crates/grommet-core/src/lib.rs:380-396 | how many heads a dispatch discards: all of the class with a deadline at or before the clock, and the next one is of another class or has no deadline or one still ahead |
| BookInvariant.AdmitKeeps | crates/grommet-core/src/lib.rs:331-366 | admission keeps the whole structural invariant |
| BookInvariant.NextKeeps | crates/grommet-core/src/lib.rs:371-415 | dispatch, with any number of keys expired on the way, keeps it |
| BookInvariant.CompleteKeeps | crates/grommet-core/src/lib.rs:430-439 | completion keeps it |
| BookInvariant.SweepKeeps | crates/grommet-core/src/lib.rs:446-468 | an eviction sweep of any length keeps it |
| BookInvariant.EvictAllKeeps | crates/grommet-core/src/lib.rs:476-481 | flushing every idle key keeps it and leaves none idle |
| BookInvariant.FinishEvictKeeps | crates/grommet-core/src/lib.rs:505-520 | a finished flush keeps it |
| BookRuns.StepWorld | crates/grommet-core/src/lib.rs:331-520 | every operation keeps the per-key ledger of items, fates and states |
| BookTheorems.RunKeeps | crates/grommet-core/src/lib.rs:331-520 | so does every run |
| BookTheorems.ItemsHaveOnePlace | crates/grommet-core/src/lib.rs:331-439 | over any run each admitted item is in exactly one place and a key's queue is the rest of its admissions in order |
| BookTheorems.CountersAreExact | crates/grommet-core/src/lib.rs:611-706 | in-flight counts are exact per class and within budget, pending counts queued and in flight, evicting counts quiesced keys |
| BookTheorems.StepGrows | crates/grommet-core/src/lib.rs:331-520 | histories only grow: a final fate never changes and no state is un-kept or un-handed |
| BookTheorems.NextDispatchesInOrder | crates/grommet-core/src/lib.rs:371-415 | a dispatch carries its key's next item in admission order, after only expired ones, with the state last kept |
| BookTheorems.StateIsLinear | crates/grommet-core/src/lib.rs:398-403 | every kept state was handed out exactly once, to a dispatch or a flush, or is the one still resident |
| BookTheorems.StepPosition | crates/grommet-core/src/lib.rs:371-415 | a waiting key moves up by one for each dispatch of its class and leaves its ring only by service or expiry |
| BookTheorems.StarvationBound | crates/grommet-core/src/lib.rs:9-24 | with k keys ahead of it a waiting key sees at most k dispatches of its class, whatever else happens |
| BookTheorems.WaitingEndsByServiceOrExpiry | crates/grommet-core/src/lib.rs:9-24 | the operation at which it stops waiting dispatches it or finds its class heads expired |
| BookTheorems.SweepReleases | crates/grommet-core/src/lib.rs:446-468 | a sweep releases exactly the longest idle keys and touches no other; each went at an age of at least the window, clock less stamp, or while resident keys exceeded the cap; and it stops for a reason |
| BookTheorems.UncappedSweepIsExact | crates/grommet-core/src/lib.rs:446-468 | with a monotone clock, no cap and enough iterations an idle key stays exactly when the clock less its stamp is below the eviction window |
| BookTheorems.CapacityEvictsOnlyTheExcess | crates/grommet-core/src/lib.rs:446-468 | a key released younger than the window went while resident less evicting exceeded the cap; within the cap none is |
| BookTheorems.EvictAllReleases | crates/grommet-core/src/lib.rs:476-481 | flushing every idle key releases them all, oldest first, handing over exactly the states they hold |
| BookLaws.NextLaw | crates/grommet-core/src/lib.rs:371-415 | on any valid book: nothing when the budget is used up; else the ring's keys are taken in turn, each losing exactly its leading items of the class whose deadline is at or before the clock, and the one dispatched then its next item, which has no deadline or one still ahead, with the key's state |
| BookLaws.NextServesIfItCan | crates/grommet-core/src/lib.rs:371-415 | a dispatch happens if and only if the class has budget left and some key of its ring has, behind overdue items of the class only, an item of the class in time |
| BookLaws.StepFates | crates/grommet-core/src/lib.rs:371-439 | only a dispatch gives fates: an item expired had reached its deadline by that clock, one started had not; a fate stays but for the running one, which may complete |
| BookLaws.FatesFollowDeadlines | crates/grommet-core/src/lib.rs:371-439 | over every run, an item with fate expired has a deadline the clock has reached, and every other one with a fate was started at a dispatch whose clock was before its deadline |
| BookLaws.StepStamps | crates/grommet-core/src/lib.rs:549-576 | every operation leaves the stamp of a key that stays idle and stamps one it makes idle with its clock |
| BookLaws.IdleSinceIsTheMoment | crates/grommet-core/src/lib.rs:549-576 | over every run an idle key's stamp is the clock at the operation since which it has been idle without a break |
| QueueSlab.PushKeeps | crates/grommet-core/src/queue.rs:111-139 | linking a node behind one list keeps every list, the free list and the ownership of every node |
| QueueSlab.PopKeeps | crates/grommet-core/src/queue.rs:141-160 | freeing a list's head keeps them too |
| QueueSlab.Slab.PushBack | crates/grommet-core/src/queue.rs:129-139 | appends to one owner's queue and changes no other; the arena grows only past its peak |
| QueueSlab.Slab.PopFront | crates/grommet-core/src/queue.rs:141-160 | takes exactly the front of one owner's queue and changes no other |
| QueueSlab.Slab.Front | crates/grommet-core/src/queue.rs:162-168 | reads the front of the owner's queue, or nothing when it is empty |
| QueueSlab.Slab.Capacity | crates/grommet-core/src/queue.rs:84-88 | the arena's length is the peak number of simultaneously queued items |
| QueueSlab.FreeIsPartial | crates/grommet-core/src/queue.rs:111-127 | with a node in use the free list is shorter than the arena |
| SchedulerLinks.AppendKeeps | crates/grommet-core/src/lib.rs:558-576 | linking a key at the tail makes the stored list the old one with the key behind it |
| SchedulerLinks.DetachKeeps | crates/grommet-core/src/lib.rs:578-600 | detaching any listed key and closing the list over it removes exactly that key |
| KeyScheduler.Scheduler.IdlePatch | crates/grommet-core/src/lib.rs:587-600 | both neighbours and both ends are rewritten as a detached slot's links say |
| KeyScheduler.Scheduler.IdleLink | crates/grommet-core/src/lib.rs:558-576 | the stored links realise the idle list with the key at its newest end |
| KeyScheduler.Scheduler.IdleUnlinkHead | crates/grommet-core/src/lib.rs:578-585 | the stored head is the oldest idle key, and it alone leaves |
| KeyScheduler.Scheduler.Settle | crates/grommet-core/src/lib.rs:536-547 | presence follows the queue's head |
| KeyScheduler.Scheduler.Admit | crates/grommet-core/src/lib.rs:331-366 | refines the book's admission: one queue, the idle links, one ring and the counters |
| KeyScheduler.Scheduler.DropHead | crates/grommet-core/src/lib.rs:385-392 | discards exactly a key's next head: queue, pending count and discards all as the book says |
| KeyScheduler.Scheduler.TakeLive | crates/grommet-core/src/lib.rs:380-396 | the inner loop discards exactly the leading items of the class with a deadline at or before the clock, and takes the next if it is of the class, which then has no deadline or one still ahead |
| KeyScheduler.Scheduler.Next | crates/grommet-core/src/lib.rs:371-415 | refines the book's dispatch, so obeys the dispatch law of `BookLaws.NextLaw`, and terminates because a drained key never rejoins the ring |
| KeyScheduler.Scheduler.PopExpired | crates/grommet-core/src/lib.rs:425-427 | refines the book's collection of discarded items |
| KeyScheduler.Scheduler.Complete | crates/grommet-core/src/lib.rs:430-439 | refines the book's completion |
| KeyScheduler.Scheduler.Evict | crates/grommet-core/src/lib.rs:446-468 | refines the book's sweep over the links: the longest idle keys are released, each at an age, clock less stamp, of at least the window or while the cap was exceeded |
| KeyScheduler.Scheduler.EvictAll | crates/grommet-core/src/lib.rs:476-481 | refines flushing every idle key |
| KeyScheduler.Scheduler.Release | crates/grommet-core/src/lib.rs:489-502 | quiesces a key that has state and forgets one that has none |
| KeyScheduler.Scheduler.FinishEvict | crates/grommet-core/src/lib.rs:505-520 | refines the book's end of a flush |
| ReadyBits.MarkKeeps | crates/grommet/src/outstanding.rs:241-249 | setting a bit keeps every nonzero word covered and the bits equal to the marks not yet answered |
| ReadyBits.AnnounceKeeps | crates/grommet/src/outstanding.rs:256-261 | so does a marker's announcement, whenever it comes |
| ReadyBits.LogStep | crates/grommet/src/outstanding.rs:27-33 | how the history decides which marks are still due: a visit answers the marks its word's take found, and no later one |
| HarvestOrder.RankOrdersSlots | crates/grommet/src/outstanding.rs:823-890 | the scan's rank of words, the cursor's own split in two, orders slots by circular distance |
| HarvestOrder.LaterRanksHigher | crates/grommet/src/outstanding.rs:850-890 | summary words taken later, and the words behind the cursor, rank higher |
| HarvestSteps.SummaryTakenProgress | crates/grommet/src/outstanding.rs:276-278 | taking a summary word loses no announcement and no slot owed a poll |
| HarvestSteps.WordTakenProgress | crates/grommet/src/outstanding.rs:281-283 | taking a ready word loses no mark and no slot owed a poll |
| HarvestSteps.VisitProgress | crates/grommet/src/outstanding.rs:648-689 | a visit answers exactly the marks taken with its bit, polls the slot if it is occupied, and keeps the rest owed |
| HarvestSteps.PopOrder | crates/grommet/src/outstanding.rs:534-541 | going to the lowest announced word moves strictly on in rank |
| HarvestSteps.OwedIsAhead | crates/grommet/src/outstanding.rs:782-890 | at a cap exit everything owed a poll is past every poll made |
| HarvestSteps.BitsRestoredKept | crates/grommet/src/outstanding.rs:286-295 | giving bits back keeps every slot ready, leaving the announcement to whoever made the word nonzero |
| HarvestSteps.AnnouncementsRestoredKept | crates/grommet/src/outstanding.rs:298-303 | giving announcements back keeps every nonzero word covered |
| HarvestSteps.MaskKeepsAll | crates/grommet/src/outstanding.rs:316-327 | no mask ever drops a bit that was set |
| OutstandingSet.LiveIsOccupied | crates/grommet/src/outstanding.rs:902-932 | the live counter counts the occupied slots |
| OutstandingSet.Outstanding.Interfere | crates/grommet/src/outstanding.rs:241-261 | any number of steps of any number of markers keep every nonzero word covered and no bit lost |
| OutstandingSet.Outstanding.TryPush | crates/grommet/src/outstanding.rs:752-764 | a full set hands the future back unchanged; otherwise it goes into a vacant slot, which ends ready |
| OutstandingSet.Outstanding.MarkOwn | crates/grommet/src/outstanding.rs:241-261 | the owner's own mark, interleaved with others, leaves the slot ready and the bitmap covered |
| OutstandingSet.Outstanding.PollCurrent | crates/grommet/src/outstanding.rs:648-689 | visits the bits in hand in order, polling occupied slots up to the cap and keeping the cursor just past the last; exactly the futures found finished leave, each counted once |
| OutstandingSet.Outstanding.RestoreWord | crates/grommet/src/outstanding.rs:286-295 | restored bits are ready again and their word covered, under interference |
| OutstandingSet.Outstanding.Restore | crates/grommet/src/outstanding.rs:564-602 | a cap exit leaves every owed slot ready and occupied |
| OutstandingSet.Outstanding.HasReady | crates/grommet/src/outstanding.rs:306-314 | one load at a time with markers at work between loads: misses nothing that was there when it began, and reports nothing that is not there when it returns |
| OutstandingSet.Outstanding.Harvest | crates/grommet/src/outstanding.rs:773-898 | under any interference: polls in strictly increasing circular order, no slot twice, every visited occupied slot polled, every owed slot polled unless the cap stopped the pass before it, and no mark lost; exactly the futures a poll found finished leave and their number is reported; more is reported when the cap stopped the pass or the closing look began with something to find, and never when nothing is there at the end |
| OutstandingSet.ThinnedCounts | crates/grommet/src/outstanding.rs:669-682 | the futures a pass counts as finished are as many as left their slots and as the live counter fell by |
| OutstandingSet.OwedIsPolledOrPassedOver | crates/grommet/src/outstanding.rs:773-898 | a pass polls an owed slot or is capped before it and leaves the cursor nearer by at least the polls it made |
| OutstandingSet.PolledWithinItsDistance | crates/grommet/src/outstanding.rs:39-43 | over any series of capped passes a slot at distance d that stays owed is polled within the next d + 1 polls |
| OutstandingSet.PassedOverFewTimes | crates/grommet/src/outstanding.rs:39-43 | at most d passes in a row can pass over it |
| OutstandingSet.OwedIsPolledInTime | crates/grommet/src/outstanding.rs:39-43 | over any run of harvests under any interference, each from the cursor the last one left, a slot at distance d that stays owed is polled after at most d other polls |
| OutstandingSet.ReadyIsOwed | crates/grommet/src/outstanding.rs:241-261 | between passes a ready slot's word is announced unless a marker of that word is between its two steps |
| OutstandingSet.MarkedButUnannounced | crates/grommet/src/outstanding.rs:241-261 | the exception, concretely: slot 64 of 65 marked and its word unannounced |
| OutstandingSet.UnannouncedIsNotPolled | crates/grommet/src/outstanding.rs:823-890 | a word neither announced at the start of a pass nor since is not scanned |
| WakerCell.StepKeeps | crates/grommet-core/src/waker_slot.rs:88-186 | every atomic step of the registrar and of any number of wakers keeps exclusion and delivery |
| WakerCell.OneThreadInTheCell | crates/grommet-core/src/waker_slot.rs:88-186 | at most one thread is ever inside the cell |
| WakerCell.NoWakeIsLost | crates/grommet-core/src/waker_slot.rs:88-186 | a wake begun after a completed registration ends with that waker, or a later one of the owner, woken or owed by an unfinished thread |
| WakerCell.QuietMeansWoken | crates/grommet-core/src/waker_slot.rs:88-186 | once every thread is done it has been woken |
| WakerCell.RegistrarIsAlone | crates/grommet-core/src/waker_slot.rs:88-111 | with one registrar the second-registrar branch is never taken |
| MailboxProtocol.StepKeeps | crates/grommet/src/mailbox.rs:183-341 | every atomic step of any number of handles and of the receiver keeps order, ownership and the sleep condition |
| MailboxProtocol.NoItemIsSleptOn | crates/grommet/src/mailbox.rs:237-243 | while the receiver sleeps unwoken on a published head, some sender is between its publish and its doorbell check |
| MailboxProtocol.QuietSleepIsEmpty | crates/grommet/src/mailbox.rs:289-318 | once senders are at rest, an unwoken sleeper has taken everything accepted |
| MailboxProtocol.TakenInOrder | crates/grommet/src/mailbox.rs:336-341 | values come out in the order accepted, none lost or doubled |
| MailboxProtocol.ClosedIsConclusive | crates/grommet/src/mailbox.rs:289-333 | the closed answers come only when every accepted value has been taken and no handle is left |
| MailboxProtocol.LastRingReaches | crates/grommet/src/mailbox.rs:119-128 | a sleeping receiver has been woken if and only if the last handle's ring was made after its current registration |
| MailboxProtocol.LastRingCanBeMissed | crates/grommet/src/mailbox.rs:302-306 | a run in which the ring falls between the producer count and the registration, and the receiver sleeps with no handle left |
| WaitList.QueueRetire | crates/grommet/src/waiters.rs:130-139 | ending a registration takes it, and only it, out of the live queue |
| WaitList.Retained | crates/grommet/src/waiters.rs:143-151 | dropping tombstones changes neither the live queue nor its order |
| WaitList.LiveMeansWaiting | crates/grommet/src/waiters.rs:123-127 | a ticket is live exactly while its registration waits, so an ended ticket never names a slot's new owner |
| WaitList.Waiters.Park | crates/grommet/src/waiters.rs:187-218 | joins behind everyone waiting under a fresh generation; storage grows only past the peak of live waiters; tombstones outnumber the live entries afterwards exactly as stated of the lengths before |
| WaitList.Waiters.Refresh | crates/grommet/src/waiters.rs:223-234 | replaces exactly that registration's waker; an ended ticket changes nothing |
| WaitList.Waiters.Cancel | crates/grommet/src/waiters.rs:240-249 | removes exactly a live registration and says whether it was live; tombstones outnumber the live entries afterwards exactly as stated of the lengths before |
| WaitList.Waiters.WakeOne | crates/grommet/src/waiters.rs:255-280 | wakes the oldest live registration, past any tombstones, or nobody when none is live |
| WaitList.Waiters.Close | crates/grommet/src/waiters.rs:284-301 | wakes everyone live, oldest first, and refuses later parking |
| WaitList.Waiters.Compact | crates/grommet/src/waiters.rs:143-151 | drops exactly the tombstones, exactly when the queue is longer than eight and at least twice the free slots; the queue is bounded by eight or twice the slots |
| WaitList.PrevailAfterGuard | crates/grommet/src/waiters.rs:143-151 | past the guard, tombstones outnumber the live entries exactly when they did before it and it did not fire |
| WaitList.BurstOfCancellations | crates/grommet/src/waiters.rs:187-249 | a run of fifteen parks and fifteen cancels that ends with ten tombstones and nobody waiting |
| WaitList.Waiters.Any | crates/grommet/src/waiters.rs:182-184 | the published count says whether anyone waits |
| ShardEffects.SweepEffect | crates/grommet/src/shard.rs:489-491 | a sweep quiesces exactly the keys it hands back, each once |
| ShardEffects.InFlightTotal | crates/grommet/src/shard.rs:519-524 | the per-class counters add up to the keys in flight, within the budgets |
| ShardSteps.DrainMoves | crates/grommet/src/shard.rs:251-258 | a dispatch moves every tracked id to the discards or to the future, and loses none |
| ShardSteps.NoPairTwice | crates/grommet/src/shard.rs:189-202 | a pair is in the live index exactly when a tracked item carries it, and no two do |
| ShardSteps.OutstandingFits | crates/grommet/src/shard.rs:519-523 | futures equal in-flight total plus flushes and never exceed the budgets' sum plus the flush slots; evicting equals staged plus flushing |
| ShardSteps.NextShard | crates/grommet/src/shard.rs:251-258 | a dispatch keeps the accounting and always finds room, for a key with no other future |
| ShardSteps.ShedShard | crates/grommet/src/shard.rs:322-335 | handing a discarded item back forgets exactly its pair |
| ShardSteps.FlushShard | crates/grommet/src/shard.rs:340-357 | starting a flush keeps the accounting and always finds room |
| ShardSteps.CompleteShard | crates/grommet/src/shard.rs:436-453 | a finished item returns its key's state and forgets exactly its pair |
| ShardSteps.FlushedShard | crates/grommet/src/shard.rs:454-457 | a finished flush gives back one slot and its key |
| ShardTurns.ArriveCoalesces | crates/grommet/src/shard.rs:179-211 | an arrival is handed back exactly when coalescing is on and its pair is queued, in flight or not yet shed; any other joins the end of its key's queue as it came, its pair is remembered, and no other key is touched |
| ShardTurns.LiveIsOutstanding | crates/grommet/src/shard.rs:189-202 | a pair is in the live index exactly when an item queued, discarded and not handed back, or in flight carries it |
| ShardTurns.FinishMeans | crates/grommet/src/shard.rs:435-458 | a finished dispatch leaves its key what it kept, waiting in the class of its next item or idle since now, and forgets its pair; a finished flush gives back its slot and leaves its key only queued work; no other key is touched |
| ShardTurns.ServedMeans | crates/grommet/src/shard.rs:251-258 | one call of `next` obeys the dispatch law and starts a future, for a key that had none, exactly when something is dispatched |
| ShardTurns.ShedMeans | crates/grommet/src/shard.rs:322-335 | every discard is handed back, oldest first, and exactly the discards' pairs are forgotten |
| ShardTurns.FlushesFromTheFront | crates/grommet/src/shard.rs:352-357 | exactly the keys from the front of the staged list get a flush each, until none waits or the slots are full |
| ShardTurns.SweptKeys | crates/grommet/src/shard.rs:489-491 | nothing while candidates wait; otherwise a sweep stages the states of the longest idle keys, each old enough or beyond the cap when it went |
| ShardTurns.FinalKeys | crates/grommet/src/shard.rs:611-612 | the final flush releases every idle key and stages exactly the states they hold, oldest first |
| ShardTurns.HarvestMeans | crates/grommet/src/shard.rs:415-460 | of the futures outstanding, those of the first keys to finish leave, as many as the batch allows, zero read as one, or all there are; each key stands as its future left it, and no other key is touched |
| ShardTurns.RunAccounts | crates/grommet/src/shard.rs:505-660 | over every run of the shard: futures equal in-flight keys plus flushes and always fit, evicting equals staged plus flushing, and the live index is exactly the pairs tracked, none twice |
| ShardClosing.FillsEveryBudget | crates/grommet/src/shard.rs:251-258 | when nothing queued is due, one pass leaves every class with an empty ring or a full budget |
| ShardClosing.EndLeavesNothing | crates/grommet/src/shard.rs:601-618 | over every run of work without deadlines, with a budget of at least one for each class, nothing is discarded and a shard that ends leaves no key in its book |
| ShardEnding.FrontOutlook | crates/grommet-core/src/lib.rs:371-415 | serving one front key runs an item, or leaves every key's prospect in the rest of the pass what it was |
| ShardEnding.PassOutlook | crates/grommet/src/shard.rs:251-258 | the pass over the classes starts a future only if some waiting key's walk comes to an item that runs, and otherwise leaves each key where its walk says |
| ShardEnding.EndsExactly | crates/grommet/src/shard.rs:581-618 | for every state a turn can start in: exactly when that turn ends the shard, exactly which keys it leaves, and which of them hold work |
| ShardEnding.EndsWithWorkExactly | crates/grommet/src/shard.rs:601-618 | a shard ends with an item queued if and only if its last turn starts with nothing out or able to arrive, no key's walk runs an item, some key's walk is stranded, and, before the final flush, no key whose queue comes to nothing holds a state |
| ShardEnding.NothingStrands | crates/grommet/src/shard.rs:601-618 | with no deadlines and a budget for each class no key is stranded, so the condition cannot hold |
| ShardEnding.WhatAnEndLeaves | crates/grommet/src/shard.rs:601-618 | the same of every run, by the state its last turn starts in; whatever is left, nothing is in flight, staged or flushing |
| ShardEnding.EndCanLeaveWork | crates/grommet/src/shard.rs:581-618 | a run of two turns, with one deadline, that ends with an item still queued |
| ShardEnding.EndCanLeaveUnbudgeted | crates/grommet/src/shard.rs:581-618 | a run of two turns, with no deadline and a class of budget zero, that ends with an item still queued |
| ShardOneCall.OneCallToTheEnd | crates/grommet/src/shard.rs:581-662 | a run of five turns in which one item is admitted, dispatched and completed with a state, which is staged and flushed before the shard ends with nothing left |
| ShardLedger.RunIsABookRun | crates/grommet/src/shard.rs:505-662 | every run of the shard whose clock never runs backwards is, operation by operation, a run of the book reaching the same book; what was handed back unrun is what expired, in order |
| ShardLedger.EndFinishesEverything | crates/grommet/src/shard.rs:601-618 | so without deadlines, with a budget for each class, at an end every item admitted was dispatched and completed, and every state kept was handed out again once, to a later dispatch or to a flush |
| ShardReactor.Shard.AdmitOne | crates/grommet/src/shard.rs:179-211 | an arrival is handed back exactly when coalescing is on and its pair is queued, in flight or not yet shed; any other joins the end of its own key's queue with its class, deadline and work, its pair is remembered, and no other key is touched |
| ShardReactor.Shard.DispatchClass | crates/grommet/src/shard.rs:252-257 | one `next` after another, each by the dispatch law and each future finding room, up to the first that dispatches nothing |
| ShardReactor.Shard.DispatchReady | crates/grommet/src/shard.rs:240-259 | the classes in order, each served by the dispatch law until it has nothing to give |
| ShardReactor.Shard.ShedExpired | crates/grommet/src/shard.rs:322-335 | every discarded item is handed back, oldest first, exactly their pairs are forgotten and no discard is left |
| ShardReactor.Shard.BeginFlushes | crates/grommet/src/shard.rs:340-357 | exactly the front of the staged list gets flushes, until it is empty or the slots are full |
| ShardReactor.Shard.FinishOne | crates/grommet/src/shard.rs:435-458 | a finished dispatch forgets its pair and its key holds what it kept, waiting or idle since now; a finished flush gives its slot back and its key keeps only queued work; no other key is touched |
| ShardReactor.Shard.HarvestCompletions | crates/grommet/src/shard.rs:415-460 | exactly the futures of the first keys to finish that have one leave, as many as the batch allows, zero read as one, or all there are, and the count is their number; each key holds what its future first returned, and no other key is touched |
| ShardReactor.Shard.DrainInbox | crates/grommet/src/shard.rs:365-407 | arrivals are taken one by one, each while fewer than the limit are pending, until none is left, the batch is used up or the limit reached; the mailbox is found closed only when all was taken and more would have been |
| ShardReactor.Shard.Sweep | crates/grommet/src/shard.rs:486-491 | nothing while candidates wait; otherwise the states of exactly the longest idle keys are staged, each old enough or beyond the cap when it went |
| ShardReactor.Shard.FinalFlush | crates/grommet/src/shard.rs:611-612 | releases every idle key and stages exactly the states they hold |
| ShardReactor.Shard.RunTurn | crates/grommet/src/shard.rs:581-662 | a turn is the law of each stage in order: dispatch, hand back, flush; then, with nothing able to arrive, out or staged, the final flush once and the end when nothing is left to flush, else listen, harvest and, at a tick, sweep; with the accounting kept |
| Accounts.ApplyKeeps | examples/accounts/src/sim.rs:117-136 | one application keeps accounts, records and history in step and overflows nothing |
| Accounts.AppliedAtMostOnce | examples/accounts/src/sim.rs:104-115 | no request id is applied twice, on one account or two |
| Accounts.VersionCountsRequests | examples/accounts/src/sim.rs:117-136 | an account's version is the number of ids applied to it and its balance the fold of their mutations |
| Accounts.SimStore.Commit | examples/accounts/src/sim.rs:93-145 | a known id answers its record or a conflict and changes nothing; an unknown one is refused exactly when the version differs, the sum leaves 64 bits or the version is the last, and else applied: a delta is added, a set balance is stored, the version goes up by one; a lost acknowledgement follows an application |
| Accounts.AccountProcessor.Hold | examples/accounts/src/processor.rs:112-137 | the account worked on is the resident copy, else the cached one, else the stored one, which also fills the cache; whichever it is, it was durable at its version |
| Accounts.AccountProcessor.WriteThrough | examples/accounts/src/processor.rs:150-203 | at most one application, of what was asked, to the account as it durably is; what is kept and what the cache is left with are stated; every copy left behind is durable history |
| Accounts.AccountProcessor.Process | examples/accounts/src/processor.rs:102-204 | under any faults at most one application of a request never applied before: a debit takes its amount from the durable balance, a credit adds it, a revaluation stores its result, and the answer is the new balance; every error but in doubt means none; what stays resident and cached; without faults a replay is a duplicate exactly when it asks for what was recorded, and a fresh request on a current copy that overflows nothing is applied |
| Accounts.Drive | examples/accounts/src/processor.rs:102-204 | over any run of calls, evictions and expiries under any faults: a debit or credit once applied answers every later fault-free call of the same request with the balance it first made; and every balance made is that of the applied calls so far, without revaluations the starting balance plus the applied credits less the applied debits |
| Accounts.TallyIsSum | examples/accounts/src/processor.rs:236-238 | with no revaluation applied, tallying the applied calls one by one comes to the credits less the debits |
| Accounts.RevaluationCanConflict | examples/accounts/src/processor.rs:239-245 | a revaluation applied and then replayed without faults that is answered by a request conflict |

## Left out

- Memory orderings, fences below sequential consistency, back-off, cache padding, thread pinning and unwinding: the concurrent models are interleavings of atomic steps.
- Wrap-around of generations, ring positions, dispatch sequence numbers and position words: they are unbounded, except where the wheel retires a position at the last generation.
- Words as integers: ready words, summary words and occupancy words are sets of bit positions, so shifts and masks appear as set operations.
- The wheel's global identity counter: a wheel's identity is a constructor parameter, and two wheels are told apart by it.
- The wheel's two-dimensional array of list heads: it is one sequence indexed by level and slot.
- QueueSlab.Slab.PushBack: requires fewer than 2^32 - 1 live items, where the source panics.
- KeyScheduler.Scheduler.Complete: requires the class the key was dispatched under, which the source trusts its caller for.
- KeyScheduler.Scheduler.FinishEvict: requires a key that is quiesced; the source's branch for an unknown key is a debug assertion.
- Doorbell rings from a harvest or a mark: whether the owner is woken is the subject of the waker cell and the mailbox.
- The restore guard's drop during unwinding: only the explicit restores of a capped pass are modelled.
- Futures and wakers as objects: how each poll of a harvest is answered is its parameter; outputs and their callback are not modelled.
- MailboxProtocol.NoItemIsSleptOn: says nothing of a handle dropped while a deferred push is unannounced, which the crate's callers never do.
- The receiver's departure, the wait for room inside `send`, and the release of capacity: the wait list is proved on its own.
- Liveness of every pending sender: a woken sender whose room was taken by another polls again with an ended ticket and parks no second time.
- The age of the oldest in-flight dispatch, metrics, snapshots of gauges and panic policy.
- ShardReactor.Shard.RunTurn: the outstanding set is a map from key to future and the book its specification; both are refined by the classes of their own modules; how the loop waits between turns, and the wheel that times its tick, are choices of the input.
- The revaluation's arithmetic: it is an arbitrary deterministic function of the account and the scenario count.
- Calls for different accounts interleaving inside one another: they share only the request records, which one atomic commit reads and writes.
- PostgreSQL and Redis adapters, the router, the semaphore, reply channels, fault plans, the front door, topology, calibration, drivers and clocks.
