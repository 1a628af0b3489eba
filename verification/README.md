# Daily task scheduler with multitasking — a Dafny model

This project models a small daily scheduler. Each task has:

- an id, a description and a duration in minutes;
- a list of dependency ids;
- five "value dimensions": a strict start time, then four 0/1 weights;
- a multitask flag, a priority and a status: N (not started), I (in queue) or C (completed).

The scheduler keeps ready tasks in an array-backed max heap ordered by priority. One loop iteration does this:

1. Recompute every task's priority. A task whose strict start time has been reached gets 10; otherwise the priority is `3*w1 + 2*w2 + 3*w3 + w4`.
2. Push every task that has status N and no dependencies.
3. Pop the top task.
4. If that task can multitask and a queued partner exists, promote the partner to priority 11 and pop again. The longer of the two tasks absorbs the shorter one, and both are run in one slot as long as the longer one.
5. Otherwise run the popped task alone.

Running a task advances the clock by its duration, removes its id from the other tasks' dependency lists and marks it C.

The model has five modules:

- `Results`: the success/failure wrapper used for the source's exceptions.
- `Tasks`: the task record, `updatePriority`, and the comparison by priority.
- `HeapShape`: child/parent index arithmetic and the "lies in the subtree of" relation.
- `MaxHeaps`: the generic max heap over a key function, with the list and the `heap_size` counter kept apart as the class `MaxHeap` keeps them. It covers `heapify`, `increase_key`, `heappush`, `heappop` and `maxkey`.
- `Scheduler`: `remove_dependency`, `get_tasks_ready`, `check_unscheduled_tasks`, `get_multitask`, `update_duration`, one iteration of `run_task_scheduler` (`Step`), and the whole loop (`RunTaskScheduler`).

In Python the same task objects are shared between the task list and the heap. Here the heap holds handles, which are positions in the task list, and compares them by the current priority of the task they point at. So a priority written by `get_tasks_ready` or `get_multitask`, or a duration written by `update_duration`, is seen through both views, just as `TaskScheduler`'s list and heap share one `Task2` object. `heappush`'s dummy task of priority 0 is the handle one past the end of the task list.

## Model

| member | source | states |
|---|---|---|
| MaxHeaps.FromList | max_heap.py:17-25 | MaxHeap's constructor adopts the given list unchanged and sets `heap_size` to its length |
| MaxHeaps.FromListKeepsOrder | max_heap.py:17-25 | the constructor does not heapify: the new heap is heap-ordered exactly when the given list was, which an empty or one-element list always is |
| MaxHeaps.FromListDoesNotHeapify | max_heap.py:17-25 | the out-of-order list [1, 2] stays out of order once adopted |
| HeapShape.Left | max_heap.py:27-38 | the parent of the left child of `i` is `i` |
| HeapShape.Right | max_heap.py:40-57 | the parent of the right child of `i` is `i`, and the right child sits just after the left one |
| HeapShape.Parent | max_heap.py:59-75 | `(i - 1) // 2` of a non-root index lies strictly before it and is not negative |
| HeapShape.ChildOfParent | max_heap.py:27-75 | every non-root index is the left or the right child of its parent, so `left`/`right` and `parent` are inverse |
| MaxHeaps.Heapify | max_heap.py:142-168 | heapify moves only slots of the subtree of `i` inside the counted prefix; afterwards slot `i` holds one of `i` and its children, ranking at least as high as all three |
| MaxHeaps.HeapifyPermutes | max_heap.py:142-168 | heapify only swaps, so the list after it holds exactly the same elements |
| MaxHeaps.HeapifyOrders | max_heap.py:142-168 | if the subtrees of both children of `i` are heap-ordered, heapify leaves the subtree of `i` heap-ordered |
| MaxHeaps.SiftUp | max_heap.py:134-139 | the sift-up loop only permutes the list |
| MaxHeaps.IncreaseKey | max_heap.py:113-139 | increase_key raises PriorityDecrease exactly when the new element ranks below the one at `i`; otherwise the result holds the old contents with slot `i` replaced by the new element |
| MaxHeaps.IncreaseKeyOrders | max_heap.py:129-139 | suppose every parent-child edge except the one into `i` is ordered, and the parent of `i` also ranks at least as high as the children of `i`; then a successful increase_key leaves a heap |
| MaxHeaps.HeapIsAlmostHeap | max_heap.py:129-139 | every heap meets that condition at every index inside the counted prefix |
| MaxHeaps.SiftUpReachesRoot | max_heap.py:134-139 | an element ranking strictly above every other slot is carried by the sift-up to slot 0 |
| MaxHeaps.Push | max_heap.py:94-111 | heappush on a full counter fails exactly when the element ranks below the priority-0 placeholder; on success counter and list grow by one, the contents gain exactly the element, and heap order is kept |
| MaxHeaps.Pop | max_heap.py:170-192 | heappop fails with Underflow exactly when the counter is below 1; otherwise it returns the old root, shrinks counter and list by one, removes exactly that element, keeps heap order, and on a heap the returned element ranks at least as high as every counted one |
| MaxHeaps.MoveLastToRootDropsRoot | max_heap.py:187-189 | overwriting the root with the last element and dropping the last slot loses exactly the old root |
| MaxHeaps.MoveLastToRootIsAssignThenPop | max_heap.py:187-189 | the root-replacement step equals `heap[0] = heap[-1]` followed by `heap.pop()` |
| MaxHeaps.RootIsMax | max_heap.py:170-192 | in a heap no counted element ranks above the root |
| MaxHeaps.MaxKey | max_heap.py:77-91 | maxkey fails exactly on an empty list and otherwise returns the first slot |
| MaxHeaps.MaxKeyIsMax | max_heap.py:77-91 | on a non-empty heap, maxkey ranks at least as high as every counted element |
| MaxHeaps.Drain | max_heap.py:170-192 | popping a heap until it is empty yields exactly its contents in non-increasing priority order |
| Tasks.PriorityInRange | auto_day_scheduler.py:32-37 | with 0/1 weights, updatePriority yields a value in [0, 10], and 10 exactly when the strict start time is set and reached |
| Tasks.StrictStartDominates | auto_day_scheduler.py:32-37 | once a strict start time is reached the task keeps priority 10 at every later time, and no task with 0/1 weights ranks above it |
| Tasks.UpdatePriority | auto_day_scheduler.py:32-37 | updatePriority changes no field other than the priority |
| Tasks.Gt | auto_day_scheduler.py:42-46 | `a > b` holds exactly when `b < a` |
| Scheduler.KeyOrderIsTaskOrder | auto_day_scheduler.py:42-46 | the heap compares handles by key, and for two real tasks that is Task2's comparison: key(a) < key(b) exactly when `a < b`, key(a) > key(b) exactly when `a > b` |
| Scheduler.NewScheduler | auto_day_scheduler.py:63-66 | a fresh scheduler (empty queue) is well formed exactly when no task starts with status I |
| Scheduler.RemoveFirst | auto_day_scheduler.py:79-80 | list.remove on a list holding the id shortens it by one and removes exactly one copy. Python's list.remove raises ValueError on an absent id, but remove_dependency calls it only after its `task_id in t.dependencies` test, so an absent id leaves the list as it was |
| Scheduler.RemoveFirstDropsFirstOccurrence | auto_day_scheduler.py:80 | list.remove deletes the first occurrence and keeps the order of everything else |
| Scheduler.RemoveDependency | auto_day_scheduler.py:73-80 | remove_dependency changes only dependency lists; every task with a different id loses the first occurrence of the id; the task with that id, and lists without the id, are untouched |
| Scheduler.GetTasksReady | auto_day_scheduler.py:82-95 | get_tasks_ready fails exactly when some ready task's new priority is below the placeholder's; otherwise every task is refreshed, the queue gains exactly the ready tasks, and the queue stays consistent with the statuses. Its outcome, the queue list included, is exactly the fold `Sweep` of its loop |
| Scheduler.RunSweep | auto_day_scheduler.py:88-95 | the loop computes the fold `Sweep`: the passes run over the task list in order, each refreshing one task and, when it is N with no dependencies, marking it I and pushing it with the priorities refreshed so far; the first failing push ends the loop |
| Scheduler.SweepFailureStays | auto_day_scheduler.py:88-95 | once a push has failed no later pass runs, so the whole loop fails with that error |
| Scheduler.PassPushesReady | auto_day_scheduler.py:89-95 | a pass over a ready task whose new priority is not below the placeholder's refreshes it, marks it I and pushes it: the queue gains exactly its handle and stays heap-ordered if it was |
| Scheduler.PassIsSwept | auto_day_scheduler.py:89-95 | a pass fails exactly when its task is ready and its new priority is below the placeholder's; otherwise the task is refreshed and the queue gains its handle exactly when it was ready |
| Scheduler.SweepIsSwept | auto_day_scheduler.py:88-95 | after `n` passes the fold has failed exactly when some ready task among the first `n` got a priority below the placeholder's; otherwise those `n` tasks are refreshed, the rest are untouched, and the queue gained exactly the ready ones among them |
| Scheduler.SweepOrdersTwo | auto_day_scheduler.py:88-95 | from an empty queue, two ready tasks are pushed in list order and the higher-priority first one stays at the front of the queue list |
| Scheduler.CheckUnscheduledTasks | auto_day_scheduler.py:97-105 | the check answers true exactly when some task has status N |
| Scheduler.GetMultitask | auto_day_scheduler.py:107-121 | get_multitask succeeds exactly when some queued task can multitask; it then promotes the first such queue slot and reports which slot that was; otherwise nothing changes |
| Scheduler.PromoteAndReheapify | auto_day_scheduler.py:116-119 | the promotion as written raises the partner's priority to 11, changes no other task, and only permutes the queue |
| Scheduler.SiftDownPromotionKeepsRoot | auto_day_scheduler.py:116-119 | the promotion as written never changes the queue's root unless the partner already was the root |
| Scheduler.PromotionMissesPartner | auto_day_scheduler.py:107-121 | a concrete queue where the as-written promotion finds a partner but the next heappop returns a task that cannot multitask |
| Scheduler.PromoteToRoot | auto_day_scheduler.py:116-119 | the corrected promotion raises the partner's priority to 11, changes no other task, and only permutes the queue |
| Scheduler.PromotedPartnerAtRoot | auto_day_scheduler.py:116-119 | when every other task ranks below 11, the corrected promotion puts the partner at the root, so the next heappop returns it |
| Scheduler.PromotionReachesPartner | auto_day_scheduler.py:107-121 | on the same concrete queue the corrected promotion makes the next heappop return the partner |
| Scheduler.UpdateDuration | auto_day_scheduler.py:123-135 | update_duration reports the longer duration as the total; the longer task (task1 on a tie) is second and is shortened by the other's duration; the two durations afterwards add up to the total |
| Scheduler.CompleteTask | auto_day_scheduler.py:156-158 | completing task `h` changes only dependency lists and statuses. Every task with an id other than `h`'s loses the first occurrence of that id; a task sharing `h`'s id keeps its list. `h` alone becomes C, and its duration is added to the completed work |
| Scheduler.ExecuteSingle | auto_day_scheduler.py:166-172 | the single branch runs the task popped from the queue's top, and the queue left is exactly the rest of that pop. Every task has the popped id discharged, the popped task alone becomes C, and the clock moves by its duration |
| Scheduler.PopPartner | auto_day_scheduler.py:148 | the second heappop returns the promoted queue's top, a queued task other than the first, and the queue it leaves has lost exactly those two |
| Scheduler.ExecutePair | auto_day_scheduler.py:149-164 | the multitask branch runs the popped top (a multitask task) with the task the second pop returned, records the promoted multitask partner, and leaves the queue the second pop left, which has lost exactly those two. The durations merge as update_duration says. The shorter task's id and then the longer one's are discharged from every list, exactly those two become C, and the clock moves by the longer duration |
| Scheduler.Step | auto_day_scheduler.py:142-172 | one iteration fails exactly when get_tasks_ready does. Otherwise it reports the refreshed state, which is exactly the fold `Sweep`: every task refreshed, and the queue gains exactly the ready tasks, pushed in list order. An idle slot means the refreshed queue was empty, and nothing else changed. Which tasks ran is what `Chosen` states. A single slot ran the first heappop's result, because it cannot multitask or no task left in the queue can. A paired slot ran that result, which can multitask, with the second heappop's result. That second pop came after the first multitask task in the remaining queue list was promoted by the given rule. The queue left is what the last pop left, and it has lost exactly the tasks run. Their ids are discharged in run order, they alone become C, and no other task's status changes. Every task run was queued or ready before the iteration. Statuses only move forward and the clock moves by exactly the newly completed work. With the corrected promotion and 0/1 weights, the second task popped is the promoted partner |
| Scheduler.ChosenIdleIffEmpty | auto_day_scheduler.py:145 | an iteration is idle exactly when the queue is empty |
| Scheduler.PairNeedsPartner | auto_day_scheduler.py:147 | the pair branch runs only when the popped task can multitask and some task left in the queue can |
| Scheduler.PartnerPoppedUnique | auto_day_scheduler.py:107-121 | get_multitask's choice of partner and the second heappop's result have a single outcome |
| Scheduler.ChosenPinsPops | auto_day_scheduler.py:145-149 | the kind of slot, the tasks the heappops took and the queue they left depend only on the refreshed state |
| Scheduler.ChosenDetermines | auto_day_scheduler.py:142-172 | one iteration is deterministic: two outcomes that both satisfy `Executed` and `Chosen` for the same refreshed state are equal |
| Scheduler.HigherReadyRunsFirst | auto_day_scheduler.py:142-172 | two ready tasks and an empty queue, the first of higher priority and unable to multitask: the refreshed queue list is [first, second] and the iteration runs the first task alone |
| Scheduler.RunTaskScheduler | auto_day_scheduler.py:140-174 | when the loop ends every task is C and the elapsed time equals the total (merged) duration of the tasks it completed |

## Left out

- Printing is not modelled: `print_self`, `format_time`, `__repr__` and the messages in the run loop. Nor is the sample data after the class definitions. None of these affects the schedule.
- `check_unscheduled_tasks` reads the module-level list `tasks` (auto_day_scheduler.py:102) rather than `self.tasks`. The script passes that same list to the scheduler, so the model reads the scheduler's own tasks.
- `run_task_scheduler` need not terminate. A dependency on an id that never completes keeps a task at N forever. `RunTaskScheduler` takes an iteration budget and reports `OutOfFuel` when it runs out; nothing is claimed about such runs beyond `Advances`.
- Failed states are not kept. When an exception escapes, Python leaves a partially updated state: `heappush` keeps the appended dummy, and the remaining tasks go unrefreshed. The model returns the error without that state.
- Heap order across iterations is not claimed. `get_tasks_ready` rewrites the priorities of tasks that are already queued without restoring heap order. So the scheduler's invariant (`WellFormed`) covers queue contents and statuses, not heap order. The pop-returns-the-maximum guarantee (`MaxHeaps.Pop`, `MaxHeaps.Drain`) is stated only for heap-ordered inputs.
- The value dimensions are a fixed record of five integers. The source indexes a Python list, which would raise IndexError if it were shorter.
- MaxHeaps.Heapify: the index is a natural number; Python's negative indexing from the end is not modelled.
- MaxHeaps.IncreaseKey: requires the index to lie inside the list. The source would raise IndexError, and its only caller, `heappush`, always passes a valid index.
- MaxHeaps.Push: requires the counter not to exceed the list length; the source would raise IndexError. Its success/failure equivalence and heap-order clause are stated for a counter equal to the list length, which every scheduler state has.
- MaxHeaps.SiftUp: its own contract states only that it permutes. The ordering and reach-the-root properties are `MaxHeaps.IncreaseKeyOrders` and `MaxHeaps.SiftUpReachesRoot`.
- Scheduler.Step: requires `WellFormed`, the invariant every state reached from `NewScheduler` keeps. With the as-written promotion it does not claim that the second task popped is the promoted partner, because of the finding below. It states instead that the second task is what a heappop returns after that promotion.
- Tasks created with status I, or with any status letter other than N, I and C, are not modelled. Task2's constructor accepts any `status` string (auto_day_scheduler.py:22). A task that starts as I is not in the empty queue `TaskScheduler.__init__` creates, so it is never run. A task with another letter is never pushed, because get_tasks_ready pushes only N. check_unscheduled_tasks never counts it either, because it looks only for N. So such a task is skipped silently and never completes. `Tasks.Status` has only the three letters. `Scheduler.NewScheduler` is well formed exactly when no task starts as I, and every scheduler operation requires a well-formed state.
- Descriptions are opaque strings. Ids and durations are unbounded integers, as in Python.

## Findings

| source | as written | input that shows it | evidently intended | confidence | as-written member | corrected member |
|---|---|---|---|---|---|---|
| auto_day_scheduler.py:116-119 | the multitask partner found at queue slot `i` gets priority 11 and is re-placed with `heapify(i)`, which only sifts down, so it never leaves its subtree | queue [plain task of priority 5, multitask task of priority 3] after the multitask task at the top was popped: get_multitask promotes slot 1, the root is unchanged, and the second `heappop` returns the plain task | the promoted partner moves up to the root (as `increase_key` does), so the second `heappop` returns it | high; not executed | Scheduler.PromotionMissesPartner | Scheduler.PromotedPartnerAtRoot |

`Scheduler.Step` and `Scheduler.RunTaskScheduler` take the promotion rule as a parameter: `SiftDownAsWritten` or `SiftUpToRoot`. `Scheduler.SiftDownPromotionKeepsRoot` is the general form of the as-written behaviour: promoting any slot other than the root leaves the root unchanged. With `SiftUpToRoot` and 0/1 weights, `Scheduler.Step` guarantees that the second task popped is the promoted partner.
