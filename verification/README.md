# Kernel and thread algorithms, modelled in Dafny

A model of the algorithms in this coursework repository that carry state which is easy to get wrong,
with proofs of what they keep. Line numbers below are those of the C files.

* **SLOB page heap** (`SlobBlocks`, `SlobSpec`, `SlobPage`, `SlobBestFit`, `SlobAlloc`). A page is a raw
  array of 16-bit units; its free list lives inside the free blocks, with the one-unit form that stores
  only a negated offset. `SlobPage` runs the C code on that array and is proved to refine `SlobSpec`,
  where a page is a set of live blocks and an address-ordered, coalesced list of free ones. Pointers into
  a page are unit offsets; the page's base address is explicit because alignment depends on it.
* **Real-time runqueues under group scheduling** (`RtQueue`, `RtTree`, `RtPick`, `RtCpu`). Priority lists,
  bitmap, cached highest priority and count at every level, and the entity that stands for each group one
  level up.
* **Runtime borrowing** (`RtBorrow`) between the CPUs of one root domain, with the `BUG_ON` as an assert.
* **Task groups** (`TgTree`, `TgWalk`, `TgBandwidth`, `TgGroups`). Parent, child and sibling links, the
  goto-driven walk over them, the admission test run by that walk, and the operations it guards.
* **Remote wake list** (`WakeList`), **double runqueue locks** (`RqLock`) and the **load average**
  (`LoadAvg`) of `sched.c`.
* **Round robin** (`RoundRobin`): the tick of `SCHED_RR`, section 2.8.4 of IEEE Std 1003.1, System
  Interfaces.
* **Elevator** (`Elevator`) of project 2. Its source calls it shortest-seek; the code is a LOOK elevator
  and is modelled as one.
* **Two thread programs**: the searched, extended and shrunk list (`Dinner`) and the 32-slot buffer
  (`BoundedBuffer`), one memory access or lock operation a step.

Sequential code that updates memory is imperative Dafny, proved against functions and predicates on
values; concurrent code is a state machine over its steps, with every interleaving of any number of
threads (one producer and one consumer for the buffer, as its `main` starts).

Where the code falls short of what it is documented to do:

* `best_fit` receives its result pointers by value, so `slob_alloc` never sees what it finds. `Alloc` and
  `HeapRunOnePerPage` follow the code: every allocation takes a fresh page, which holds one live block
  until it is freed. `best_fit`, `slob_page_alloc` and `slob_free` are proved on their own for every
  starting point, so their results hold for callers that do pass the answer on.
* `fixed_power_int` promises the n-th power for any number f of fraction bits. Its 64-bit products wrap for
  large bases: for a base up to one, `NearIffFits` shows that the error bound holds at every power exactly
  when the base is below 2^(64-f). Every such base is, exactly up to 31 fraction bits (`NearIffNarrow`).
* `calc_load` wraps too when its weighted sum does not fit in 64 bits: `NearIffSumFits`. Below 2^53 it fits
  for every decay factor, and for no other loads (`NearIffSmall`).
* `to_ratio` loses part of a group's share of the CPU in two ways, and the admission test then lets too much
  through. Shares here are exact, in units of 2^-20 of the CPU.
  * Its 20-bit shift is on 64 bits, so from 2^44 ns (about 4.9 hours) of runtime on the top bits are lost.
    `WholeCpuAdmitted` is a group with all of the CPU under a parent with none and a 95% limit.
  * It rounds down. `SmallSharesSlip`: any number of groups with 1 us in 1.1 s each pass under a parent with
    no runtime; 2^20 of them use about 95% of the CPU.

  `RatioIsShare` says exactly when: the ratio is less than one unit below the share exactly for runtimes that
  are unlimited or below 2^44, and equals it exactly when besides the division leaves no remainder.
  `TrustedIffExact` and `TrustedIffModest` show that these two conditions are just what the test needs to keep
  a group's share at most its parent's, and less than one unit above it. `SchedulableIsFair` and
  `NonNestedFit` give what the test guarantees of whole hierarchies.
* `__enable_runtime` sets a runqueue's runtime without looking at what it held. `Enable` conserves the
  total exactly when the runqueue was disabled or held its own runtime already; `EnableLeaks` is a case
  where it does not.
* In the list program, `cancel_dinner` unlinks a node before it decrements `dinner_count`, so the list is
  one short of the count in between. `LengthLaw` gives the exact relation, `ListRunsShort` a run that
  gets there; nobody walks the list in that window.

## Model

| member | source | states |
|---|---|---|
| SlobPage.SegmentConcat | indwriterups/project4/slob.c:256-266 | two encoded chains join into one exactly when the first continues at the head of the second: the lemma by which a local rewrite is seen by a walk of the whole list |
| SlobPage.SlobPage.SetSlob | indwriterups/project4/slob.c:231-241 | after the write the block is encoded with its size and next pointer, in the one-unit or the two-unit form, and nothing else on the page changed |
| SlobPage.SlobPage.Decodes | indwriterups/project4/slob.c:231-274 | slob_units, slob_next and slob_last undo set_slob for every size and next pointer, and slob_last holds exactly when next is the end of the page |
| SlobPage.SlobPage.ReadsAt | indwriterups/project4/slob.c:246-274 | walking the encoded list visits the abstract free blocks in order, with their sizes, and stops at the last |
| SlobPage.SlobPage.constructor | indwriterups/project4/slob.c:609-614 | a fresh page is one free block covering it, encoded in place |
| SlobPage.SlobPage.Scan | indwriterups/project4/slob.c:473-480 | from any starting block, finds the first one with room after alignment and its true predecessor, or there is none |
| SlobPage.SlobPage.PageAlloc | indwriterups/project4/slob.c:457-514 | fails, changing nothing, exactly when no block from the start on has room; otherwise carves the first that has, at its first aligned place: the block handed out is new, holds the bytes asked for with less than a unit to spare, and the encoded page still tiles |
| SlobPage.SlobPage.SplitAndTake | indwriterups/project4/slob.c:483-504 | the rewritten units encode exactly the two remainders of the carved block, linked in between its neighbours, and no unit outside those blocks changed |
| SlobPage.SlobPage.WriteLive | indwriterups/project4/slob.c:100-112 | the owner of a live block may store anything in it without disturbing the free list |
| SlobPage.SlobPage.Free | indwriterups/project4/slob.c:627-723 | null is ignored; the page is given back exactly when no other block is live; otherwise the block rejoins the list in address order, merged with both neighbours it touches |
| SlobPage.SlobPage.FindGap | indwriterups/project4/slob.c:702-707 | the walk ends with prev and next on either side of the freed block |
| SlobPage.SlobPage.InsertAfter | indwriterups/project4/slob.c:709-719 | the memory afterwards encodes the list with the block inserted and coalesced both ways |
| SlobPage.SlobPage.InsertFirst | indwriterups/project4/slob.c:694-700 | the same below the head of the list |
| SlobBlocks.CoverDeterminesList | indwriterups/project4/slob.c:655-720 | a sorted, coalesced free list is determined by the units it covers |
| SlobBlocks.SlobUnits | indwriterups/project4/slob.c:209-210 | that many units hold the bytes, and no fewer would |
| SlobBlocks.TotalIsCover | indwriterups/project4/slob.c:506-508 | the sizes of the free blocks add up to the number of free units |
| SlobBlocks.CarveCovers | indwriterups/project4/slob.c:483-504 | an allocation takes from the free units exactly those of the block handed out |
| SlobBlocks.InsertCovers | indwriterups/project4/slob.c:694-720 | a free adds to the free units exactly those of the block |
| SlobSpec.DeltaAligns | indwriterups/project4/slob.c:476-479 | skipping delta units lands on the next aligned address |
| SlobSpec.DeltaLeast | indwriterups/project4/slob.c:476-479 | no shorter skip is aligned |
| SlobSpec.HandedOut | indwriterups/project4/slob.c:476-509 | an allocation hands out a new live block with room for its bytes and less than a unit more, at the first aligned place of the free block |
| SlobSpec.AllocKeepsInv | indwriterups/project4/slob.c:480-510 | after an allocation free and live blocks still tile the page and the list is sorted, with no two blocks touching |
| SlobSpec.FreeKeepsInv | indwriterups/project4/slob.c:655-720 | the same after a free |
| SlobSpec.RunKeepsInv | indwriterups/project4/slob.c:457-723 | the same in every state of every run of allocations and frees |
| SlobSpec.FreeListDetermined | indwriterups/project4/slob.c:655-720 | pages with the same live blocks have the same free list |
| SlobSpec.RunOrderIrrelevant | indwriterups/project4/slob.c:457-723 | whatever the order of allocations and frees, runs that leave the same live blocks leave the same free list |
| SlobSpec.AllocThenFreeRestores | indwriterups/project4/slob.c:480-510 | allocating a block, at any alignment, and putting it back gives the identical page |
| SlobSpec.RoundTrip | indwriterups/project4/slob.c:480-723 | allocate then free with the same size: the identical page if another block was live, the page given back if none was |
| SlobSpec.LastBlockTest | indwriterups/project4/slob.c:644 | the unit count test is true of the last live block and of no other |
| SlobSpec.RunGivesBackExactly | indwriterups/project4/slob.c:644-653 | in every run a free gives the page back exactly when it frees the last live block |
| SlobBestFit.BestFit | indwriterups/project4/slob.c:381-451 | the recorded block is the pick over every block of every page, with its true predecessor and size; nothing recorded means no pick |
| SlobBestFit.PickIsBest | indwriterups/project4/slob.c:412-426 | the pick fails only when nothing fits; otherwise it fits exactly or is least in size among all that fit, and the first such |
| SlobBestFit.FailsIffNothingFits | indwriterups/project4/slob.c:396-451 | the search comes back empty exactly when no block of any listed page fits size and alignment |
| SlobBestFit.PickIsTightest | indwriterups/project4/slob.c:411-426 | otherwise its block is an exact fit or no larger than any block of any listed page that fits, and with no alignment always the latter |
| SlobBestFit.StartedAtBest | indwriterups/project4/slob.c:467-480 | slob_page_alloc started at the pick takes an aligned part of that very block without scanning on |
| SlobAlloc.Alloc | indwriterups/project4/slob.c:556-618 | the block comes from a fresh page and no listed page changes; no block exactly when no page can be had or BUG_ON(!b) fires, which it does exactly when the request with its alignment skip exceeds an empty page |
| SlobAlloc.BugOnlyBeyondPage | indwriterups/project4/slob.c:603-616 | with an alignment of at most a page that is exactly when the request is longer than a page, which kmalloc (line 737) and the object caches (line 861) exclude |
| SlobAlloc.HeapRunOnePerPage | indwriterups/project4/slob.c:556-653 | in every run of slob_alloc and slob_free each page holds exactly one live block, so every free gives its page back |
| RtQueue.AddedOk | indwriterups/project1/sched_rt.c:754-763 | after an enqueue bitmap, cached priority and count agree with the lists again |
| RtQueue.RemovedOk | indwriterups/project1/sched_rt.c:765-789 | after a dequeue at the right priority bitmap, cached priority and count agree with the lists again |
| RtQueue.RemovedIs | indwriterups/project1/sched_rt.c:890 | the place of the entity is gone from its list and nothing else on any list has moved |
| RtQueue.DropSame | indwriterups/project1/sched_rt.c:890 | what stays queued stands in the order it stood in |
| RtQueue.LinkedSame | indwriterups/project1/sched_rt.c:876-879 | linking an entity at either end leaves the others in their order |
| RtQueue.MovedOk | indwriterups/project1/sched_rt.c:968-980 | moving an entity within its list changes no membership and keeps all of that |
| RtQueue.LengthIsMembers | indwriterups/project1/sched_rt.c:832-855 | rt_nr_running, the number of queued entities, is the total length of the lists |
| RtTree.RemoveKeeps | indwriterups/project1/sched_rt.c:885-897 | taking an entity off, the entity above it being off, leaves every other queued entity at the priority it was queued with, and every group link in order |
| RtTree.AddKeeps | indwriterups/project1/sched_rt.c:857-883 | the same for putting one on |
| RtCpu.RtCpu.constructor | indwriterups/project1/sched.c:7920-7946 | the initial runqueues satisfy the hierarchy invariant |
| RtCpu.RtCpu.EnqueueOne | indwriterups/project1/sched_rt.c:857-883 | a throttled or empty group stays off; anything else goes to the asked end of the list of its present priority |
| RtCpu.RtCpu.ListAdd | indwriterups/project1/sched_rt.c:876-882 | the field updates of an enqueue, one after the other, give the specified runqueue |
| RtCpu.RtCpu.DequeueOne | indwriterups/project1/sched_rt.c:885-897 | the entity leaves its list at the priority it was queued with |
| RtCpu.RtCpu.ListDel | indwriterups/project1/sched_rt.c:765-789 | the field updates of a dequeue give the specified runqueue, and the WARN_ON on priorities cannot fire |
| RtCpu.RtCpu.LinkBack | indwriterups/project1/sched_rt.c:905-910 | the back pointers spell out the chain from the root down |
| RtCpu.RtCpu.DequeueStack | indwriterups/project1/sched_rt.c:903-916 | top-down removal takes exactly the chain off, each entity at the priority its enqueue used, disturbing no other order |
| RtCpu.RtCpu.EnqueueEntity | indwriterups/project1/sched_rt.c:918-923 | restores the invariant at every level with every queued entity of the chain at the asked end of its list |
| RtCpu.RtCpu.DequeueEntity | indwriterups/project1/sched_rt.c:925-935 | restores the invariant at every level with groups that still have something queued at the tail of their lists |
| RtCpu.RtCpu.EnqueueTask | indwriterups/project1/sched_rt.c:940-952 | exactly this task joins the queued tasks; off its chain no order changes |
| RtCpu.RtCpu.DequeueTask | indwriterups/project1/sched_rt.c:954-962 | exactly this task leaves the queued tasks; off its chain no order changes |
| RtCpu.RtCpu.RequeueTask | indwriterups/project1/sched_rt.c:968-991 | who is queued does not change, every queued entity of the chain goes to the asked end of its list, and the invariant holds |
| RtCpu.RtCpu.Throttle | indwriterups/project1/sched_rt.c:617-641 | throttling a group takes its entity off, sends what stays queued of its chain to the tails, keeps the invariant at every level, and neither adds nor loses a queued task |
| RtCpu.RtCpu.Unthrottle | indwriterups/project1/sched_rt.c:577-598 | unthrottling puts it back under the same conditions |
| RtCpu.RtCpu.PickEntity | indwriterups/project1/sched_rt.c:1104-1119 | the BUG_ON cannot fire; the result heads the best list of the runqueue |
| RtCpu.RtCpu.PickNext | indwriterups/project1/sched_rt.c:1121-1143 | the descent ends; with the root unthrottled it returns a task of least priority number among all queued tasks with no throttled group above, foremost at every level, and none exactly when there is none |
| RtPick.ClearReachesRoot | indwriterups/project1/sched_rt.c:1121-1139 | what is queued below unthrottled groups counts at the root with a priority at least as good |
| RtBorrow.ConservedMeans | indwriterups/project1/sched_rt.c:412-415 | the invariant says that the n enabled runqueues hold n times the group's runtime together |
| RtBorrow.NoWrap | indwriterups/project1/sched_rt.c:391-397 | under it no runqueue holds more than all were given, so no difference or sum wraps |
| RtBorrow.Share | indwriterups/project1/sched_rt.c:391-393 | n shares fit in what the CPU has left over and n shares and n units do not; a share is nothing exactly for disabled CPUs and those with less than n units left over |
| RtBorrow.RtBandwidth.constructor | indwriterups/project1/sched.c:7992 | all CPUs at the group's own runtime satisfy the invariant |
| RtBorrow.RtBandwidth.Balance | indwriterups/project1/sched_rt.c:360-410 | each lender gives the n-th part, rounded down, of the runtime it has left over, until one brings the borrower to a full period, which it never exceeds by borrowing; the total is conserved and the return value says whether anybody had runtime left over |
| RtBorrow.RtBandwidth.Reclaim | indwriterups/project1/sched_rt.c:446-481 | greedy reclaim ends with nothing wanted: BUG_ON(want) is unreachable |
| RtBorrow.RtBandwidth.Disable | indwriterups/project1/sched_rt.c:415-491 | the runqueue ends disabled and the total is conserved: CPU after CPU gives all it has until nothing is missing, or the first enabled one takes the whole excess, and the CPUs after that are untouched |
| RtBorrow.RtBandwidth.Enable | indwriterups/project1/sched_rt.c:502-524 | conserves the total exactly when the runqueue was disabled or held its own runtime already |
| RtBorrow.EnableLeaks | indwriterups/project1/sched_rt.c:516-520 | a borrower that is enabled without having been disabled loses what it borrowed |
| RtBorrow.RtBandwidth.SetBandwidth | indwriterups/project1/sched.c:8749-8761 | every runqueue, disabled or not, gets the new runtime and the total is right again |
| TgWalk.WalkTgTree | indwriterups/project1/sched.c:1474-1504 | the walk over the links ends and makes exactly the calls of the recursive pre-order-down, post-order-up traversal, stopping at the first non-zero return, for every pair of visitors |
| TgTree.LinkKidRepresents | indwriterups/project1/sched.c:8522-8524 | linking a new group first in its parent's list represents the tree with that leaf added |
| TgTree.UnlinkKidRepresents | indwriterups/project1/sched.c:8553 | unlinking a group represents the tree without it |
| TgBandwidth.TgSchedulable | indwriterups/project1/sched.c:8680-8728 | returns what the specified admission code says of one group, its children added up in a loop |
| TgBandwidth.CodeIsRefusal | indwriterups/project1/sched.c:8694-8728 | that code is -22 for a runtime above its period, else -16 for taking the runtime from real-time tasks, else -22 for a ratio above the global one or children whose ratios sum, modulo 2^64, to more than it, else 0 |
| TgBandwidth.RatioIsShare | indwriterups/project1/sched.c:8647-8653 | the ratio is never above the exact share of the CPU, is less than one unit of 2^-20 below it exactly for runtimes unlimited or below 2^44, and equals it exactly when also nothing is rounded |
| TgBandwidth.RatioLosesTop | indwriterups/project1/sched.c:8652 | the ratio is the share, rounded down, of the runtime without its bits from 44 up |
| TgBandwidth.CodeMeansNodeOk | indwriterups/project1/sched.c:8680-8728 | in the code's own ratios the test is zero exactly when runtime fits the period, tasks are not starved, the ratio is within the global one and the true sum of the children's ratios fits |
| TgBandwidth.CodeMeansNodeFair | indwriterups/project1/sched.c:8680-8728 | in exact shares, with runtimes unlimited or below 2^44: it is zero if the group keeps those limits, only if it keeps them to within a unit for each child, and exactly if it keeps them when nothing is rounded |
| TgBandwidth.WalkMeansSchedulable | indwriterups/project1/sched.c:8730-8739 | the walk returns zero exactly when every group of the tree passes its test |
| TgBandwidth.WalkFindsFirst | indwriterups/project1/sched.c:8730-8739 | the walk returns what is to be said of the first group in pre-order that is not in order |
| TgBandwidth.SchedulableIsFair | indwriterups/project1/sched.c:8680-8739 | with runtimes unlimited or below 2^44 no tree whose exact shares keep every limit is rejected, every accepted tree keeps them to within rounding, and when nothing is rounded exactly those that keep them are accepted |
| TgBandwidth.NonNestedShare | indwriterups/project1/sched.c:8716-8726 | groups none of which contains another have together at most their ancestor's ratio; with runtimes unlimited or below 2^44 their exact shares add up to at most that plus one unit for each of them, and when nothing is rounded to at most its exact share |
| TgBandwidth.TrustedIffExact | indwriterups/project1/sched.c:8647-8728 | a budget is admitted only where its exact share is at most its parent's and the global one, whatever these are, exactly when its ratio loses nothing |
| TgBandwidth.TrustedIffModest | indwriterups/project1/sched.c:8647-8728 | and only where it is less than one unit above either exactly when its runtime is unlimited or below 2^44 |
| TgBandwidth.WholeCpuAdmitted | indwriterups/project1/sched.c:8647-8728 | 17592186045 microseconds out of as many pass under a parent with no runtime and a 95% global limit |
| TgBandwidth.SmallSharesSlip | indwriterups/project1/sched.c:8647-8728 | n groups with 1 microsecond in 1.1 seconds each pass under a parent with no runtime, for every n, and their exact shares add up |
| TgGroups.AdmitsExactly | indwriterups/project1/sched.c:8741-8750 | for any proposed budget the 64-bit test admits it exactly when the hierarchy with it in place is schedulable |
| TgGroups.TaskGroups.RtSchedulable | indwriterups/project1/sched.c:8730-8739 | the walk's answer is the traversal's answer with the proposed budgets |
| TgGroups.TaskGroups.SetBandwidth | indwriterups/project1/sched.c:8741-8769 | all or nothing, accepted exactly when the result is schedulable and refused with the code of the first group in pre-order that would not be in order; the hierarchy stays schedulable either way; in exact shares as for SchedulableIsFair |
| TgGroups.TaskGroups.SetGlobal | indwriterups/project1/sched.c:8817-8910 | a new global setting is kept exactly when it is sane and the hierarchy is schedulable under it, and restored otherwise, with the code of what refused it |
| TgGroups.TaskGroups.Create | indwriterups/project1/sched.c:8443-8532 | a new group with no runtime goes first in its parent's child list, the other links stay, and the whole hierarchy stays schedulable |
| TgGroups.TaskGroups.Destroy | indwriterups/project1/sched.c:8542-8558 | removing a childless group takes exactly it out of its parent's child list and keeps the rest schedulable |
| TgGroups.TaskGroups.Attach | indwriterups/project1/sched.c:8843-8850 | a real-time task is refused exactly by groups without runtime, which keeps the no-starvation rule |
| TgGroups.TaskGroups.NonNestedFit | indwriterups/project1/sched.c:8710-8726 | in every reachable state groups none of which contains another fit in the global ratio together; with runtimes unlimited or below 2^44 their exact shares do but for one unit for each of them, and when nothing is rounded they fit in the exact global share |
| WakeList.StepKeeps | indwriterups/project1/sched.c:2548-2620 | every step of any waker or of the drain keeps the invariant |
| WakeList.ListsHoldThePending | indwriterups/project1/sched.c:2548-2620 | in every interleaving the lists hold exactly the tasks pushed and not yet activated, none twice, and a non-empty shared list has an interrupt pending, about to be sent, or a handler before its xchg |
| WakeList.WakingIsHeldOrPending | indwriterups/project1/sched.c:2548-2620 | in every interleaving the tasks waking are exactly those in some waker's hands or on the lists, never both, and each claim is one activation or one task waking |
| WakeList.OneInterruptEach | indwriterups/project1/sched.c:2618-2619 | interrupts sent or about to be sent are one for each batch the handler took and one for a batch that waits |
| WakeList.QuietMeansAllActivated | indwriterups/project1/sched.c:2604-2620 | no wakeup is lost: with nothing in flight every task ever claimed has been pushed and activated, and none is left waking |
| WakeList.DrainNeverStalls | indwriterups/project1/sched.c:2548-2561 | the drain always finds the next pointer it needs |
| RqLock.StepKeeps | indwriterups/project1/sched.c:1616-1719 | every lock, trylock, unlock and double_rq_lock step keeps ownership and lock order |
| RqLock.WaitsUpward | indwriterups/project1/sched.c:1616-1702 | in every reachable state a spinning CPU wants a lock above every lock it holds |
| RqLock.NoDeadlock | indwriterups/project1/sched.c:1616-1702 | no set of CPUs waits in a circle |
| RqLock.SomeoneCanGoOn | indwriterups/project1/sched.c:1616-1719 | whenever a CPU spins, some CPU can take the lock it wants or let one go |
| RqLock.DoubleLockTakesBoth | indwriterups/project1/sched.c:1685-1702 | when double_rq_lock is done the CPU holds exactly the two locks asked for |
| RqLock.BalanceTakesBoth | indwriterups/project1/sched.c:1616-1654 | when either _double_lock_balance is done the CPU holds exactly its own lock and the other |
| RqLock.LockAndUnlock | indwriterups/project1/sched.c:1672-1719 | a lock operation ends with that lock held, an unlock with that one lock gone |
| RqLock.BalanceForms | indwriterups/project1/sched.c:1621-1653 | the fair form starts by giving up the caller's lock; the other takes a free lock at once, waits holding its own for a higher one, and gives it up only for a lower one |
| LoadAvg.FixedPowerInt | indwriterups/project1/sched.c:3334-3354 | the loop computes the specified square-and-multiply power in wrapping 64-bit arithmetic |
| LoadAvg.MulRoundWraps | indwriterups/project1/sched.c:3341-3343 | each multiplication gives what is left in 64 bits of the product and a half, scaled back |
| LoadAvg.FixedPowerNear | indwriterups/project1/sched.c:3320-3354 | for a base of at most one and below 2^(64-f) the result stays in range and within n/2 of the exact power, for every f and n |
| LoadAvg.FirstPowerIs | indwriterups/project1/sched.c:3340-3344 | the first power of any base is the base without its bits from 64-f up |
| LoadAvg.NearIffFits | indwriterups/project1/sched.c:3334-3354 | for a base of at most one the bound holds at every power exactly when the base is below 2^(64-f) |
| LoadAvg.WideScaleWraps | indwriterups/project1/sched.c:3340-3344 | with 32 or more fraction bits already the first power of one is wrong |
| LoadAvg.NearIffNarrow | indwriterups/project1/sched.c:3334-3354 | the bound holds for every base of at most one exactly up to 31 fraction bits |
| LoadAvg.CalcLoadBetween | indwriterups/project1/sched.c:3280-3287 | an update whose weighted sum fits in 64 bits ends between the old load and the active count |
| LoadAvg.CalcLoadNear | indwriterups/project1/sched.c:3280-3287 | and within half a unit of the exact average |
| LoadAvg.CalcLoadRounds | indwriterups/project1/sched.c:3280-3287 | it is the exact average plus one half, rounded down |
| LoadAvg.CalcLoadWraps | indwriterups/project1/sched.c:3280-3287 | without that condition it is what is left of the sum and the half in 64 bits |
| LoadAvg.NearIffSumFits | indwriterups/project1/sched.c:3280-3287 | it is that near exactly when the weighted sum fits |
| LoadAvg.NearIffSmall | indwriterups/project1/sched.c:3280-3287 | it is that near with all decay factors alike exactly when load and active are below 2^53 |
| LoadAvg.CalcLoadNNear | indwriterups/project1/sched.c:3356-3385 | calc_load_n is within half a unit plus n times the gap over twice FIXED_1 of the exact average after n periods |
| LoadAvg.PowerAgreesWithSteps | indwriterups/project1/sched.c:3356-3385 | it agrees with n successive updates to within (n+1)/2 plus that, and both stay between load and active |
| RoundRobin.RunQueue.Tick | indwriterups/project1/sched_rt.c:1759-1785 | FIFO tasks are left alone; an RR task loses one tick of its slice, and with the last one gets a new slice and goes to the tail unless it is alone |
| RoundRobin.TurnComes | indwriterups/project1/sched_rt.c:1772-1784 | after the slices of the first k tasks, exactly those have had their turn: the queue is rotated by k and only their slices are reset |
| RoundRobin.RunsWithin | indwriterups/project1/sched_rt.c:1759-1785 | the task at position k runs after at most k slices, at an exactly known tick and not before |
| RoundRobin.FullRound | indwriterups/project1/sched_rt.c:1759-1785 | one full round restores the queue order with every slice reset |
| RoundRobin.RoundsRepeat | indwriterups/project1/sched_rt.c:1759-1785 | from then on n slices bring the identical state back |
| Elevator.Sstf.Add | indwriterups/project2/sstf-iosched.c:81-100 | the queue stays sorted, the request going before those of its own sector |
| Elevator.InsertedAt | indwriterups/project2/sstf-iosched.c:97 | the request stands at its place and the others in their order around it |
| Elevator.Sstf.Dispatch | indwriterups/project2/sstf-iosched.c:29-79 | takes the nearest request strictly ahead, or turns and takes the far end when nothing is ahead; fails exactly on an empty queue; the queue stays sorted |
| Elevator.Sstf.Merged | indwriterups/project2/sstf-iosched.c:23-27 | only the merged request leaves and the queue stays sorted |
| Elevator.RunSorted | indwriterups/project2/sstf-iosched.c:23-100 | the queue is sorted in every state of every run |
| Elevator.AtMostOneTurn | indwriterups/project2/sstf-iosched.c:29-79 | a request that has its sector to itself waits through at most one turn, and none if it lies ahead, however many others arrive |
| Elevator.WaitIsBounded | indwriterups/project2/sstf-iosched.c:29-79 | and for fewer dispatches than twice the number of sectors |
| Elevator.TurnsAreBounded | indwriterups/project2/sstf-iosched.c:29-100 | a request that shares its sector waits through at most two turns for each older request there, and two more, however many others arrive |
| Elevator.SharedWaitIsBounded | indwriterups/project2/sstf-iosched.c:29-100 | and for fewer dispatches than the number of sectors times three more than twice those older requests |
| Dinner.StepKeeps | concur/concurrent3/3way.c:87-258 | every step of any searcher, inserter or deleter keeps the invariant of locks, list, count and private nodes |
| Dinner.NoCrash | concur/concurrent3/3way.c:87-171 | no thread ever dereferences or frees a null or freed node |
| Dinner.ListIsHistory | concur/concurrent3/3way.c:105-155 | following the pointers always visits the inserted dinners in order less the cancelled ones |
| Dinner.ListMoves | concur/concurrent3/3way.c:105-155 | an insert's link appends its node, a cancel's unlink takes out the node its walk reached, and no other step changes the list |
| Dinner.SearchFinds | concur/concurrent3/3way.c:159-171 | a search stops at the dinner it drew, counted from the head |
| Dinner.SearchEndsAtDrawn | concur/concurrent3/3way.c:164-170 | a search ends only on the dinner whose number it drew |
| Dinner.CancelTakesDrawn | concur/concurrent3/3way.c:140-151 | a cancel unlinks the dinner whose number it drew from the list as it was when it drew, and only that |
| Dinner.RoundsAreWhole | concur/concurrent3/3way.c:180-255 | in every run each thread does whole rounds: a node allocated is linked and counted once, a deleter that sees dinners unlinks, counts down and frees one, a searcher that sees dinners finds one, and no other round does |
| Dinner.LengthLaw | concur/concurrent3/3way.c:120-151 | the list is as long as dinner_count, one more between an insert's link and count, one less between a cancel's, and never both; it is at least the count exactly outside a cancel's window |
| Dinner.ListRunsShort | concur/concurrent3/3way.c:140-151 | a run in which the list is shorter than dinner_count |
| Dinner.Exclusion | concur/concurrent3/3way.c:180-255 | no search is under way while a deleter is, and one thread at most updates list and count |
| Dinner.NoDeadlock | concur/concurrent3/3way.c:180-255 | while any lock is held one of its holders can go on, and while none is every thread can |
| BoundedBuffer.ProducerKeeps | concur/concurrent1/concurrent1.c:35-102 | every producer step keeps full slots in step with sem_c and the tokens in flight, and free slots with sem_p |
| BoundedBuffer.ConsumerKeeps | concur/concurrent1/concurrent1.c:111-145 | the same for every consumer step |
| BoundedBuffer.ScansFind | concur/concurrent1/concurrent1.c:50-52 | no scan ever reaches the end of the slots, even as the other thread changes them |
| BoundedBuffer.ProducerScan | concur/concurrent1/concurrent1.c:50-52 | a producer that finds a slot saw it free and every slot below it full on the way |
| BoundedBuffer.ConsumerScan | concur/concurrent1/concurrent1.c:130-132 | a consumer that finds a slot saw it full and every slot below it free on the way |
| BoundedBuffer.MadeAsDrawn | concur/concurrent1/concurrent1.c:81-93 | the item made is the two values drawn |
| BoundedBuffer.IntactAndOnce | concur/concurrent1/concurrent1.c:81-138 | the items printed and those waiting are together exactly the items made, so each pair is consumed intact and at most once |
| BoundedBuffer.StuckMeans | concur/concurrent1/concurrent1.c:38-142 | the two can stop only with as many items taken as asked for or made, and as many made as asked for or fit |
| BoundedBuffer.RunsEnd | concur/concurrent1/concurrent1.c:38-142 | every run ends, within 37 steps an item made and 40 an item taken |

## Left out

- slob.c: the choice among eleven size-class lists, list rotation, NUMA checks, the RCU footer, `get_fragmentation`, zeroing, and the page allocator, whose answer is a parameter of `Alloc`.
- slob.c: requests of size zero, which `slob_free` rejects with a `BUG_ON`; the allocation side is modelled for positive sizes.
- sched_rt.c: priority boosting, `highest_prio.next`, pushable lists, `cpupri`, migration and leaf lists; the tree of groups and task priorities is fixed while tasks are queued.
- RtCpu.RtCpu.Throttle: does not model the clock comparison that decides to throttle; it may happen at any time to any group, and `Unthrottle` likewise.
- RtBorrow.RtBandwidth.Balance: one root domain, borrower not disabled (its caller compares `rt_time` with an infinite runtime first), and totals below 2^63 nanoseconds; the clearing of `rt_throttled` by `__enable_runtime` is not modelled.
- TgGroups.TaskGroups.SetGlobal: the sysctl change and its admission test are one step, as under their mutex, and settings arrive in nanoseconds; the global period is below 2^44.
- Task groups: which tasks are real-time is the set of groups that have one; fair-share scheduling, reference counting and RCU delays are not modelled.
- TgGroups.TaskGroups.Attach: the test of `sched_rt_can_attach` and the attachment are one step, so a `tg_set_bandwidth` to zero runtime in between is excluded.
- WakeList: `wake_list` operations are sequentially consistent; the choice of CPU and the locking around activation are not modelled, and a task is claimed by one waker until activated.
- RqLock: interrupts, lock nesting classes and the fairness of spinning are not modelled.
- LoadAvg: `FSHIFT` is 11 and `FIXED_1` is 2048; `linux/sched.h`, which defines them, is not part of this model. The bounds on `calc_load_n` are for loads and active counts below 2^53, where no sum wraps for any factor.
- RoundRobin.RunsWithin: n tasks alone at the top priority of one runqueue, with no arrivals, blocking or throttling; requeueing in a hierarchy is `RtCpu.RtCpu.RequeueTask`.
- sstf-iosched.c: completion and the block layer.
- Dinner: `malloc` always succeeds and may return a freed node; thread creation, sleeping and printing are not modelled, and `random_range` returns any number of its documented range.
- BoundedBuffer: random values are arbitrary, b non-zero; `sem_getvalue`, which only decides a message, is not modelled.
- The remaining schedulers, drivers, fuzzers and exercises of the repository.
