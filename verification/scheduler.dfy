/**
 The day scheduler (class `TaskScheduler`): it owns the task list and a max heap of
 queued tasks. Python shares task objects between the list and the heap; here the
 heap holds handles (positions in the task list) and compares them by the current
 priority of the task they point at, so a priority or duration written through one
 side is seen through the other, just as TaskScheduler's list and heap share one
 Task2 object.
 */
module Scheduler {
  import opened Results
  import opened Tasks
  import opened MaxHeaps
  import HeapShape

  /** Priority given to a multitask partner found in the queue. */
  const PromotedPriority: int := 11

  /** Position of a task in the scheduler's task list. */
  type Handle = nat

  datatype Scheduler = Scheduler(tasks: seq<Task>, queue: MaxHeap<Handle>)

  /** Heap key of a handle: the priority of its task; the placeholder handle has priority 0. */
  function Key(tasks: seq<Task>): Handle -> int
  {
    (h: Handle) => if h < |tasks| then tasks[h].priority else PlaceholderPriority
  }

  /** MaxHeap compares tasks with `<` and `>`; comparing two handles by key is exactly
      Task2's `__lt__` and `__gt__` on the tasks behind them. */
  lemma KeyOrderIsTaskOrder(tasks: seq<Task>, a: Handle, b: Handle)
    requires a < |tasks| && b < |tasks|
    ensures Key(tasks)(a) < Key(tasks)(b) <==> Lt(tasks[a], tasks[b])
    ensures Key(tasks)(a) > Key(tasks)(b) <==> Gt(tasks[a], tasks[b])
  {
  }

  /** The handle standing for heappush's placeholder task: it points past the task list. */
  function Placeholder(tasks: seq<Task>): (h: Handle)
    ensures Key(tasks)(h) == PlaceholderPriority
  {
    |tasks|
  }

  /** The heap counter matches the list, and every queued handle points at a task. */
  predicate QueueInRange(s: Scheduler)
  {
    && s.queue.heapSize == |s.queue.heap|
    && forall j :: 0 <= j < |s.queue.heap| ==> s.queue.heap[j] < |s.tasks|
  }

  /** A queue list whose contents are among another's points at the same handles. */
  lemma SameContentsInRange(a: seq<Handle>, b: seq<Handle>, n: nat)
    requires multiset(a) <= multiset(b)
    requires forall j :: 0 <= j < |b| ==> b[j] < n
    ensures forall j :: 0 <= j < |a| ==> a[j] < n
  {
    forall j | 0 <= j < |a|
      ensures a[j] < n
    {
      assert a[j] in multiset(b);
      var k :| 0 <= k < |b| && b[k] == a[j];
    }
  }

  /** No task is queued twice. */
  predicate DistinctHandles(heap: seq<Handle>)
  {
    forall h :: h in heap ==> multiset(heap)[h] == 1
  }

  /** A task has status I exactly when it sits in the queue. */
  predicate StatusMatchesQueue(s: Scheduler)
  {
    forall k :: 0 <= k < |s.tasks| ==> (s.tasks[k].status == InQueue <==> k in s.queue.heap)
  }

  predicate WellFormed(s: Scheduler)
  {
    QueueInRange(s) && DistinctHandles(s.queue.heap) && StatusMatchesQueue(s)
  }

  /** `TaskScheduler(tasks)`: an empty queue over the given tasks. */
  function NewScheduler(tasks: seq<Task>): (s: Scheduler)
    ensures (forall k :: 0 <= k < |tasks| ==> tasks[k].status != InQueue) <==> WellFormed(s)
  {
    Scheduler(tasks, FromList([]))
  }

  /** Fields that no scheduler operation ever writes. */
  predicate SameTask(t: Task, u: Task)
  {
    t.id == u.id && t.description == u.description && t.dims == u.dims && t.multitask == u.multitask
  }

  // ---------------------------------------------------------------------------
  // remove_dependency

  /** Python's `list.remove(x)`: drop the first occurrence of `x`. */
  function RemoveFirst(s: seq<int>, x: int): (r: seq<int>)
    ensures x !in s ==> r == s
    ensures x in s ==> |r| == |s| - 1
    ensures multiset(r) == multiset(s) - multiset{x}
  {
    if |s| == 0 then s
    else
      assert s == [s[0]] + s[1..];
      if s[0] == x then s[1..] else [s[0]] + RemoveFirst(s[1..], x)
  }

  /** list.remove deletes exactly the first occurrence and keeps the order of the rest. */
  lemma {:induction false} RemoveFirstDropsFirstOccurrence(s: seq<int>, x: int)
    requires x in s
    ensures RemoveFirst(s, x) == s[..FirstIndex(s, x)] + s[FirstIndex(s, x) + 1..]
  {
    if s[0] == x {
      RemoveFirstAtHead(s, x);
    } else {
      var t := s[1..];
      var k := FirstIndex(t, x);
      RemoveFirstPastHead(s, x);
      RemoveFirstDropsFirstOccurrence(t, x);
      Splice(s, k);
    }
  }

  lemma RemoveFirstAtHead(s: seq<int>, x: int)
    requires |s| > 0 && s[0] == x
    ensures FirstIndex(s, x) == 0
    ensures RemoveFirst(s, x) == s[..0] + s[1..]
  {
    assert s[..0] + s[1..] == s[1..];
  }

  /** Past a head that differs from `x`, list.remove works on the tail. */
  lemma RemoveFirstPastHead(s: seq<int>, x: int)
    requires x in s && s[0] != x
    ensures x in s[1..]
    ensures RemoveFirst(s, x) == [s[0]] + RemoveFirst(s[1..], x)
    ensures FirstIndex(s, x) == FirstIndex(s[1..], x) + 1
  {
    assert s == [s[0]] + s[1..];
  }

  /** Cutting slot `k` out of the tail, then putting the head back, cuts slot `k + 1`. */
  lemma Splice(s: seq<int>, k: nat)
    requires k + 1 < |s|
    ensures [s[0]] + (s[1..][..k] + s[1..][k + 1..]) == s[..k + 1] + s[k + 2..]
  {
    assert s[..k + 1] == [s[0]] + s[1..][..k];
    assert s[k + 2..] == s[1..][k + 1..];
  }

  /** Index of the first occurrence of `x`. */
  function FirstIndex(s: seq<int>, x: int): (k: nat)
    requires x in s
    ensures k < |s| && s[k] == x && x !in s[..k]
  {
    if s[0] == x then 0 else FirstIndex(s[1..], x) + 1
  }

  /** `remove_dependency(id)`: every task other than the one with that id loses one
      occurrence of the id from its dependency list. */
  method RemoveDependency(tasks: seq<Task>, taskId: int) returns (r: seq<Task>)
    ensures |r| == |tasks|
    ensures forall k :: 0 <= k < |r| ==> r[k] == tasks[k].(dependencies := r[k].dependencies)
    ensures forall k :: 0 <= k < |r| && (tasks[k].id == taskId || taskId !in tasks[k].dependencies) ==> r[k] == tasks[k]
    ensures forall k :: 0 <= k < |r| && tasks[k].id != taskId ==>
              r[k].dependencies == RemoveFirst(tasks[k].dependencies, taskId)
    ensures forall k :: 0 <= k < |r| ==> multiset(r[k].dependencies) <= multiset(tasks[k].dependencies)
  {
    r := tasks;
    var i := 0;
    while i < |r|
      invariant 0 <= i <= |r| == |tasks|
      invariant forall k :: i <= k < |r| ==> r[k] == tasks[k]
      invariant forall k :: 0 <= k < i ==> r[k] == tasks[k].(dependencies := r[k].dependencies)
      invariant forall k :: 0 <= k < i && (tasks[k].id == taskId || taskId !in tasks[k].dependencies) ==> r[k] == tasks[k]
      invariant forall k :: 0 <= k < i && tasks[k].id != taskId ==>
                  r[k].dependencies == RemoveFirst(tasks[k].dependencies, taskId)
    {
      var t := r[i];
      if t.id != taskId && taskId in t.dependencies {
        r := r[i := t.(dependencies := RemoveFirst(t.dependencies, taskId))];
      }
      i := i + 1;
    }
  }

  // ---------------------------------------------------------------------------
  // get_tasks_ready

  /** Status N and no pending dependency. */
  predicate IsReady(t: Task)
  {
    t.status == NotStarted && |t.dependencies| == 0
  }

  /** What one pass of get_tasks_ready's loop does to a task. */
  function Refreshed(t: Task, curTime: int): (u: Task)
    ensures u.priority == PriorityAt(t.dims, curTime)
    ensures u.status == (if IsReady(t) then InQueue else t.status)
    ensures u.(priority := t.priority, status := t.status) == t
  {
    var p := UpdatePriority(t, curTime);
    if IsReady(p) then p.(status := InQueue) else p
  }

  /** Handles of the ready tasks among the first `n`, in list order. */
  function ReadyHandles(tasks: seq<Task>, n: nat): (hs: seq<Handle>)
    requires n <= |tasks|
    ensures forall h: Handle :: h in hs <==> h < n && IsReady(tasks[h])
    ensures DistinctHandles(hs)
  {
    if n == 0 then []
    else
      var prefix := ReadyHandles(tasks, n - 1);
      if IsReady(tasks[n - 1]) then prefix + [n - 1] else prefix
  }

  /** Pass `i` of get_tasks_ready's loop: refresh task `i`; when it has status N and no
      dependencies, mark it I and push it, comparing by the keys refreshed so far. */
  function SweepPass(tasks: seq<Task>, q: MaxHeap<Handle>, i: nat, curTime: int): (r: Result<(seq<Task>, MaxHeap<Handle>), HeapError>)
    requires i < |tasks| && q.heapSize <= |q.heap|
    ensures r.Success? ==> |r.value.0| == |tasks| && r.value.1.heapSize <= |r.value.1.heap|
  {
    var t := UpdatePriority(tasks[i], curTime);
    if t.status == NotStarted && |t.dependencies| == 0 then
      var tasks' := tasks[i := t.(status := InQueue)];
      match Push(q, Key(tasks'), Placeholder(tasks'), i)
      case Failure(e) => Failure(e)
      case Success(q') => Success((tasks', q'))
    else
      Success((tasks[i := t], q))
  }

  /** The first `n` passes of get_tasks_ready's loop, as a fold; the first failing push
      ends it. */
  function Sweep(s: Scheduler, curTime: int, n: nat): (r: Result<(seq<Task>, MaxHeap<Handle>), HeapError>)
    requires n <= |s.tasks| && s.queue.heapSize <= |s.queue.heap|
    ensures r.Success? ==> |r.value.0| == |s.tasks| && r.value.1.heapSize <= |r.value.1.heap|
  {
    if n == 0 then
      Success((s.tasks, s.queue))
    else
      match Sweep(s, curTime, n - 1)
      case Failure(e) => Failure(e)
      case Success(prev) => SweepPass(prev.0, prev.1, n - 1, curTime)
  }

  /** A pass over a ready task whose refreshed priority is not below the placeholder's
      marks it I and pushes it; a heap-ordered queue stays heap-ordered. */
  lemma PassPushesReady(tasks: seq<Task>, q: MaxHeap<Handle>, i: nat, curTime: int)
    requires i < |tasks| && q.heapSize == |q.heap|
    requires IsReady(tasks[i]) && PriorityAt(tasks[i].dims, curTime) >= PlaceholderPriority
    ensures var r := SweepPass(tasks, q, i, curTime);
      && r.Success? && r.value.0 == tasks[i := Refreshed(tasks[i], curTime)]
      && r.value.1.heapSize == |r.value.1.heap| == |q.heap| + 1
      && multiset(r.value.1.heap) == multiset(q.heap) + multiset{i}
      && (Valid(q, Key(r.value.0)) ==> Valid(r.value.1, Key(r.value.0)))
  {
  }

  /** One more pass of the fold. */
  lemma SweepStep(s: Scheduler, curTime: int, tasks: seq<Task>, q: MaxHeap<Handle>, i: nat,
                  next: Result<(seq<Task>, MaxHeap<Handle>), HeapError>)
    requires i < |s.tasks| && s.queue.heapSize <= |s.queue.heap|
    requires Sweep(s, curTime, i) == Success((tasks, q))
    requires |tasks| == |s.tasks| && q.heapSize <= |q.heap| && next == SweepPass(tasks, q, i, curTime)
    ensures Sweep(s, curTime, i + 1) == next
  {
  }

  /** Once a push has failed, every longer sweep fails the same way. */
  lemma {:induction false} SweepFailureStays(s: Scheduler, curTime: int, i: nat, n: nat)
    requires i <= n <= |s.tasks| && s.queue.heapSize <= |s.queue.heap|
    requires Sweep(s, curTime, i).Failure?
    ensures Sweep(s, curTime, n) == Sweep(s, curTime, i)
    decreases n
  {
    if n > i {
      SweepFailureStays(s, curTime, i, n - 1);
    }
  }

  /** Loop invariant of get_tasks_ready after `i` tasks: those tasks are refreshed, the
      rest untouched, and exactly the ready ones among them have been pushed. */
  predicate Swept(s: Scheduler, curTime: int, tasks: seq<Task>, q: MaxHeap<Handle>, i: nat)
  {
    && i <= |tasks| == |s.tasks|
    && (forall k :: 0 <= k < i ==> tasks[k] == Refreshed(s.tasks[k], curTime))
    && (forall k :: i <= k < |tasks| ==> tasks[k] == s.tasks[k])
    && q.heapSize == |q.heap|
    && (forall j :: 0 <= j < |q.heap| ==> q.heap[j] < |tasks|)
    && multiset(q.heap) == multiset(s.queue.heap) + multiset(ReadyHandles(s.tasks, i))
    && (forall k :: 0 <= k < i && IsReady(s.tasks[k]) ==> PriorityAt(s.tasks[k].dims, curTime) >= PlaceholderPriority)
  }

  /** One pass keeps the loop invariant: it fails exactly when task `i` is ready and its
      new priority is below the placeholder's. */
  lemma PassIsSwept(s: Scheduler, curTime: int, tasks: seq<Task>, q: MaxHeap<Handle>, i: nat)
    requires Swept(s, curTime, tasks, q, i) && i < |tasks|
    ensures var r := SweepPass(tasks, q, i, curTime);
      && (r.Failure? <==> IsReady(s.tasks[i]) && PriorityAt(s.tasks[i].dims, curTime) < PlaceholderPriority)
      && (r.Failure? ==> r.error == PriorityDecrease)
      && (r.Success? ==> Swept(s, curTime, r.value.0, r.value.1, i + 1))
  {
    var t := UpdatePriority(tasks[i], curTime);
    assert IsReady(t) <==> IsReady(s.tasks[i]);
    if IsReady(t) {
      var tasks' := tasks[i := t.(status := InQueue)];
      var pushed := Push(q, Key(tasks'), Placeholder(tasks'), i);
      if pushed.Success? {
        SweptAfterPush(s, curTime, tasks, q, i, pushed.value);
      }
    } else {
      SweptAfterSkip(s, curTime, tasks, q, i);
    }
  }

  /** The fold keeps the loop invariant, and fails exactly when some ready task among
      the first `n` gets a priority below the placeholder's. */
  lemma {:induction false} SweepIsSwept(s: Scheduler, curTime: int, n: nat)
    requires WellFormed(s) && n <= |s.tasks|
    ensures var r := Sweep(s, curTime, n);
      && (r.Failure? <==> exists k :: 0 <= k < n && IsReady(s.tasks[k]) && PriorityAt(s.tasks[k].dims, curTime) < PlaceholderPriority)
      && (r.Failure? ==> r.error == PriorityDecrease)
      && (r.Success? ==> Swept(s, curTime, r.value.0, r.value.1, n))
    decreases n
  {
    if n == 0 {
      assert Swept(s, curTime, s.tasks, s.queue, 0);
    } else {
      SweepIsSwept(s, curTime, n - 1);
      var prev := Sweep(s, curTime, n - 1);
      if prev.Failure? {
        SweepFailureStays(s, curTime, n - 1, n);
      } else {
        var next := SweepPass(prev.value.0, prev.value.1, n - 1, curTime);
        SweepStep(s, curTime, prev.value.0, prev.value.1, n - 1, next);
        PassIsSwept(s, curTime, prev.value.0, prev.value.1, n - 1);
        if next.Success? {
          forall k | 0 <= k < n && IsReady(s.tasks[k])
            ensures PriorityAt(s.tasks[k].dims, curTime) >= PlaceholderPriority
          {
          }
        }
      }
    }
  }

  /** A ready task, refreshed, marked I and pushed, extends the sweep by one. */
  lemma SweptAfterPush(s: Scheduler, curTime: int, tasks: seq<Task>, q: MaxHeap<Handle>, i: nat, q': MaxHeap<Handle>)
    requires Swept(s, curTime, tasks, q, i) && i < |tasks| && IsReady(s.tasks[i])
    requires PriorityAt(s.tasks[i].dims, curTime) >= PlaceholderPriority
    requires q'.heapSize == |q'.heap| && multiset(q'.heap) == multiset(q.heap) + multiset{i}
    ensures Swept(s, curTime, tasks[i := UpdatePriority(tasks[i], curTime).(status := InQueue)], q', i + 1)
  {
    PushedInRange(q, q', i, |tasks|);
    PushedReady(s, q, q', i);
    var tasks' := tasks[i := UpdatePriority(tasks[i], curTime).(status := InQueue)];
    assert tasks'[i] == Refreshed(s.tasks[i], curTime);
  }

  /** Pushing ready task `i` extends the pushed handles by `i`. */
  lemma PushedReady(s: Scheduler, q: MaxHeap<Handle>, q': MaxHeap<Handle>, i: nat)
    requires i < |s.tasks| && IsReady(s.tasks[i])
    requires multiset(q.heap) == multiset(s.queue.heap) + multiset(ReadyHandles(s.tasks, i))
    requires multiset(q'.heap) == multiset(q.heap) + multiset{i}
    ensures multiset(q'.heap) == multiset(s.queue.heap) + multiset(ReadyHandles(s.tasks, i + 1))
  {
    assert ReadyHandles(s.tasks, i + 1) == ReadyHandles(s.tasks, i) + [i];
  }

  /** A task that is not ready, refreshed, extends the sweep by one. */
  lemma SweptAfterSkip(s: Scheduler, curTime: int, tasks: seq<Task>, q: MaxHeap<Handle>, i: nat)
    requires Swept(s, curTime, tasks, q, i) && i < |tasks| && !IsReady(s.tasks[i])
    ensures Swept(s, curTime, tasks[i := UpdatePriority(tasks[i], curTime)], q, i + 1)
  {
    assert ReadyHandles(s.tasks, i + 1) == ReadyHandles(s.tasks, i);
  }

  /** `get_tasks_ready(t)`: recompute every task's priority; each task with status N and
      no dependencies becomes I and is pushed. A push fails when the task's priority is
      below the placeholder's. */
  method GetTasksReady(s: Scheduler, curTime: int) returns (r: Result<Scheduler, HeapError>)
    requires WellFormed(s)
    ensures r.Failure? <==> exists k :: 0 <= k < |s.tasks| && IsReady(s.tasks[k]) && PriorityAt(s.tasks[k].dims, curTime) < PlaceholderPriority
    ensures r.Failure? ==> r.error == PriorityDecrease
    ensures r.Success? ==> WellFormed(r.value) && |r.value.tasks| == |s.tasks|
    ensures r.Success? ==> forall k :: 0 <= k < |s.tasks| ==> r.value.tasks[k] == Refreshed(s.tasks[k], curTime)
    ensures r.Success? ==> multiset(r.value.queue.heap) == multiset(s.queue.heap) + multiset(ReadyHandles(s.tasks, |s.tasks|))
    ensures r.Success? ==> |r.value.queue.heap| == |s.queue.heap| + |ReadyHandles(s.tasks, |s.tasks|)|
    ensures Sweep(s, curTime, |s.tasks|) == if r.Success? then Success((r.value.tasks, r.value.queue)) else Failure(r.error)
  {
    var swept := RunSweep(s, curTime);
    SweepIsSwept(s, curTime, |s.tasks|);
    if swept.Failure? {
      return Failure(swept.error);
    }
    SweepDone(s, curTime, swept.value.0, swept.value.1);
    r := Success(Scheduler(swept.value.0, swept.value.1));
  }

  /** The body of get_tasks_ready's loop for task `i`. */
  method SweepOne(tasks: seq<Task>, q: MaxHeap<Handle>, i: nat, curTime: int)
    returns (next: Result<(seq<Task>, MaxHeap<Handle>), HeapError>)
    requires i < |tasks| && q.heapSize <= |q.heap|
    ensures next == SweepPass(tasks, q, i, curTime)
  {
    var t := UpdatePriority(tasks[i], curTime);
    if t.status == NotStarted && |t.dependencies| == 0 {
      var tasks' := tasks[i := t.(status := InQueue)];
      var pushed := Push(q, Key(tasks'), Placeholder(tasks'), i);
      if pushed.Failure? {
        return Failure(pushed.error);
      }
      next := Success((tasks', pushed.value));
    } else {
      next := Success((tasks[i := t], q));
    }
  }

  /** The loop of get_tasks_ready, computing the fold pass by pass. */
  method RunSweep(s: Scheduler, curTime: int) returns (r: Result<(seq<Task>, MaxHeap<Handle>), HeapError>)
    requires s.queue.heapSize <= |s.queue.heap|
    ensures r == Sweep(s, curTime, |s.tasks|)
  {
    var tasks := s.tasks;
    var q := s.queue;
    var i := 0;
    while i < |tasks|
      invariant i <= |tasks| == |s.tasks| && q.heapSize <= |q.heap|
      invariant Sweep(s, curTime, i) == Success((tasks, q))
    {
      var next := SweepOne(tasks, q, i, curTime);
      SweepStep(s, curTime, tasks, q, i, next);
      if next.Failure? {
        SweepFailureStays(s, curTime, i + 1, |tasks|);
        return next;
      }
      tasks, q := next.value.0, next.value.1;
      i := i + 1;
    }
    r := Success((tasks, q));
  }


  /** What a completed sweep establishes. */
  lemma SweepDone(s: Scheduler, curTime: int, tasks: seq<Task>, q: MaxHeap<Handle>)
    requires WellFormed(s)
    requires Swept(s, curTime, tasks, q, |s.tasks|)
    ensures WellFormed(Scheduler(tasks, q))
    ensures |q.heap| == |s.queue.heap| + |ReadyHandles(s.tasks, |s.tasks|)|
    ensures !exists k :: 0 <= k < |s.tasks| && IsReady(s.tasks[k]) && PriorityAt(s.tasks[k].dims, curTime) < PlaceholderPriority
  {
    assert |multiset(q.heap)| == |multiset(s.queue.heap)| + |multiset(ReadyHandles(s.tasks, |s.tasks|))|;
    ReadyKeepsWellFormed(s, Scheduler(tasks, q), curTime);
  }

  /** A push of an in-range handle keeps every queued handle in range. */
  lemma PushedInRange(q: MaxHeap<Handle>, p: MaxHeap<Handle>, h: Handle, n: nat)
    requires forall j :: 0 <= j < |q.heap| ==> q.heap[j] < n
    requires h < n
    requires multiset(p.heap) == multiset(q.heap) + multiset{h}
    ensures forall j :: 0 <= j < |p.heap| ==> p.heap[j] < n
  {
    SameContentsInRange(p.heap, q.heap + [h], n);
  }

  /** The queue after the readiness sweep still matches the statuses. */
  lemma ReadyKeepsWellFormed(s: Scheduler, r: Scheduler, curTime: int)
    requires WellFormed(s)
    requires |r.tasks| == |s.tasks|
    requires forall k :: 0 <= k < |s.tasks| ==> r.tasks[k] == Refreshed(s.tasks[k], curTime)
    requires QueueInRange(r)
    requires multiset(r.queue.heap) == multiset(s.queue.heap) + multiset(ReadyHandles(s.tasks, |s.tasks|))
    ensures WellFormed(r)
  {
    var ready := ReadyHandles(s.tasks, |s.tasks|);
    forall h | h in r.queue.heap
      ensures multiset(r.queue.heap)[h] == 1
    {
      assert h in multiset(r.queue.heap);
      if h in s.queue.heap {
        var j :| 0 <= j < |s.queue.heap| && s.queue.heap[j] == h;
        assert s.tasks[h].status == InQueue;
        assert h !in ready;
      } else {
        assert h in ready;
      }
    }
    forall k | 0 <= k < |r.tasks|
      ensures r.tasks[k].status == InQueue <==> k in r.queue.heap
    {
      assert k in r.queue.heap <==> k in multiset(r.queue.heap);
      assert k in ready <==> IsReady(s.tasks[k]);
    }
  }

  // ---------------------------------------------------------------------------
  // check_unscheduled_tasks

  /** `check_unscheduled_tasks`: some task still has status N. */
  method CheckUnscheduledTasks(tasks: seq<Task>) returns (b: bool)
    ensures b <==> exists k :: 0 <= k < |tasks| && tasks[k].status == NotStarted
  {
    var i := 0;
    while i < |tasks|
      invariant 0 <= i <= |tasks|
      invariant forall k :: 0 <= k < i ==> tasks[k].status != NotStarted
    {
      if tasks[i].status == NotStarted {
        return true;
      }
      i := i + 1;
    }
    return false;
  }

  // ---------------------------------------------------------------------------
  // get_multitask and the promotion of the partner

  /** How a found multitask partner is promoted: as get_multitask does it (raise the
      key, then sift down from the slot), or by sifting it up as increase_key does. */
  datatype PromotionRule = SiftDownAsWritten | SiftUpToRoot

  /** The tasks after the task behind queue slot `i` is raised to PromotedPriority. */
  function RaisePartner(s: Scheduler, i: nat): (tasks: seq<Task>)
    requires QueueInRange(s) && i < |s.queue.heap|
    ensures |tasks| == |s.tasks|
    ensures tasks[s.queue.heap[i]].priority == PromotedPriority
    ensures forall k :: 0 <= k < |tasks| ==> tasks[k] == s.tasks[k].(priority := tasks[k].priority)
    ensures forall k :: 0 <= k < |tasks| && k != s.queue.heap[i] ==> tasks[k] == s.tasks[k]
  {
    Raised(s.tasks, s.queue.heap[i])
  }

  /** get_multitask's promotion as written: `task.priority = 11` then `heapify(i)`. */
  function PromoteAndReheapify(s: Scheduler, i: nat): (r: Scheduler)
    requires QueueInRange(s) && i < |s.queue.heap|
    ensures QueueInRange(r) && r.tasks == RaisePartner(s, i)
    ensures r.queue.heapSize == s.queue.heapSize && multiset(r.queue.heap) == multiset(s.queue.heap)
  {
    var tasks := RaisePartner(s, i);
    var heap := Heapify(s.queue.heap, s.queue.heapSize, Key(tasks), i);
    HeapifyPermutes(s.queue.heap, s.queue.heapSize, Key(tasks), i);
    SameContentsInRange(heap, s.queue.heap, |tasks|);
    Scheduler(tasks, MaxHeap(heap, s.queue.heapSize))
  }

  /** The intended promotion: raise the key and sift the partner up to the root. */
  function PromoteToRoot(s: Scheduler, i: nat): (r: Scheduler)
    requires QueueInRange(s) && i < |s.queue.heap|
    ensures QueueInRange(r) && r.tasks == RaisePartner(s, i)
    ensures r.queue.heapSize == s.queue.heapSize && multiset(r.queue.heap) == multiset(s.queue.heap)
  {
    var tasks := RaisePartner(s, i);
    var heap := SiftUp(s.queue.heap, Key(tasks), i);
    SameContentsInRange(heap, s.queue.heap, |tasks|);
    Scheduler(tasks, MaxHeap(heap, s.queue.heapSize))
  }

  function Promote(s: Scheduler, i: nat, rule: PromotionRule): (r: Scheduler)
    requires QueueInRange(s) && i < |s.queue.heap|
    ensures QueueInRange(r) && r.tasks == RaisePartner(s, i)
    ensures r.queue.heapSize == s.queue.heapSize && multiset(r.queue.heap) == multiset(s.queue.heap)
  {
    match rule
    case SiftDownAsWritten => PromoteAndReheapify(s, i)
    case SiftUpToRoot => PromoteToRoot(s, i)
  }

  /** Slot `i` is the first queue slot whose task can multitask. */
  predicate FirstMultitask(s: Scheduler, i: nat)
    requires QueueInRange(s)
  {
    && i < |s.queue.heap|
    && s.tasks[s.queue.heap[i]].multitask
    && forall j :: 0 <= j < i ==> !s.tasks[s.queue.heap[j]].multitask
  }

  /** `get_multitask`: scan the queue list in index order; at the first task that can
      multitask, promote it and report success, together with the slot it found. */
  method GetMultitask(s: Scheduler, rule: PromotionRule) returns (found: bool, r: Scheduler, at: nat)
    requires QueueInRange(s)
    ensures found <==> exists i :: 0 <= i < |s.queue.heap| && s.tasks[s.queue.heap[i]].multitask
    ensures !found ==> r == s
    ensures found ==> FirstMultitask(s, at) && r == Promote(s, at, rule)
  {
    var i := 0;
    while i < |s.queue.heap|
      invariant 0 <= i <= |s.queue.heap|
      invariant forall j :: 0 <= j < i ==> !s.tasks[s.queue.heap[j]].multitask
    {
      if s.tasks[s.queue.heap[i]].multitask {
        assert FirstMultitask(s, i);
        return true, Promote(s, i, rule), i;
      }
      i := i + 1;
    }
    return false, s, 0;
  }

  // ---------------------------------------------------------------------------
  // update_duration

  function Max(a: int, b: int): int
  {
    if a >= b then a else b
  }

  /** Outcome of update_duration: the slot length, the shorter task (run first), the
      longer task (run second) and the task list with the longer task shortened. */
  datatype Merge = Merge(total: int, first: Handle, second: Handle, tasks: seq<Task>)

  /** `update_duration(task1, task2)`: the longer task (`task1` on a tie) absorbs the
      shorter one, whose time is deducted from it; the total is the longer duration. */
  function UpdateDuration(tasks: seq<Task>, h1: Handle, h2: Handle): (m: Merge)
    requires h1 < |tasks| && h2 < |tasks|
    ensures m.total == Max(tasks[h1].duration, tasks[h2].duration)
    ensures (m.first == h2 && m.second == h1) || (m.first == h1 && m.second == h2)
    ensures tasks[m.first].duration <= tasks[m.second].duration
    ensures tasks[h1].duration == tasks[h2].duration ==> m.second == h1
    ensures m.tasks == tasks[m.second := tasks[m.second].(duration := m.total - tasks[m.first].duration)]
    ensures h1 != h2 ==> m.tasks[m.first] == tasks[m.first]
    ensures h1 != h2 ==> m.tasks[m.first].duration + m.tasks[m.second].duration == m.total
  {
    var d1 := tasks[h1].duration;
    var d2 := tasks[h2].duration;
    if d1 >= d2 then
      Merge(d1, h2, h1, tasks[h1 := tasks[h1].(duration := d1 - d2)])
    else
      Merge(d2, h1, h2, tasks[h2 := tasks[h2].(duration := d2 - d1)])
  }

  // ---------------------------------------------------------------------------
  // time accounting

  /** Minutes a task has contributed to the timeline once it is completed. */
  function Contribution(t: Task): int
  {
    if t.status == Completed then t.duration else 0
  }

  /** Total (possibly merged) duration of the completed tasks. */
  function CompletedWork(tasks: seq<Task>): int
  {
    if |tasks| == 0 then 0 else Contribution(tasks[0]) + CompletedWork(tasks[1..])
  }

  lemma {:induction false} CompletedWorkSame(a: seq<Task>, b: seq<Task>)
    requires |a| == |b|
    requires forall k :: 0 <= k < |a| ==> Contribution(a[k]) == Contribution(b[k])
    ensures CompletedWork(a) == CompletedWork(b)
    decreases |a|
  {
    if |a| > 0 {
      CompletedWorkSame(a[1..], b[1..]);
    }
  }

  lemma {:induction false} CompletedWorkUpdate(a: seq<Task>, k: nat, t: Task)
    requires k < |a|
    ensures CompletedWork(a[k := t]) == CompletedWork(a) - Contribution(a[k]) + Contribution(t)
    decreases k
  {
    if k == 0 {
      assert a[k := t][1..] == a[1..];
    } else {
      assert a[k := t][1..] == a[1..][k - 1 := t];
      CompletedWorkUpdate(a[1..], k - 1, t);
    }
  }

  /** remove_dependency's effect on one dependency list: a task never discharges its
      own id, any other task loses the first occurrence of `id`. */
  function Discharge(deps: seq<int>, ownId: int, id: int): seq<int>
  {
    if ownId == id then deps else RemoveFirst(deps, id)
  }

  /** A task after the task with id `id` ran: that id is discharged from its list, and
      it is marked C when it is the task that ran. */
  function AfterRun(t: Task, id: int, ran: bool): Task
  {
    t.(dependencies := Discharge(t.dependencies, t.id, id), status := if ran then Completed else t.status)
  }

  /** Completing a task: `remove_dependency(task.id)` then status C. */
  method CompleteTask(tasks: seq<Task>, h: Handle) returns (r: seq<Task>)
    requires h < |tasks|
    ensures |r| == |tasks|
    ensures forall k :: 0 <= k < |r| ==> r[k] == AfterRun(tasks[k], tasks[h].id, k == h)
    ensures forall k :: 0 <= k < |r| ==> r[k].status == (if k == h then Completed else tasks[k].status)
    ensures forall k :: 0 <= k < |r| ==>
              r[k] == tasks[k].(dependencies := r[k].dependencies, status := r[k].status)
    ensures forall k :: 0 <= k < |r| ==> multiset(r[k].dependencies) <= multiset(tasks[k].dependencies)
    ensures TasksAdvance(tasks, r)
    ensures CompletedWork(r) == CompletedWork(tasks) + (if tasks[h].status == Completed then 0 else tasks[h].duration)
  {
    var discharged := RemoveDependency(tasks, tasks[h].id);
    CompletedWorkSame(tasks, discharged);
    r := discharged[h := discharged[h].(status := Completed)];
    CompletedWorkUpdate(discharged, h, r[h]);
    MarkedIsAfterRun(tasks, discharged, h);
    CompletionAdvances(tasks, r, h);
  }

  /** Marking task `h` C in the discharged list gives every task its AfterRun state. */
  lemma MarkedIsAfterRun(tasks: seq<Task>, discharged: seq<Task>, h: Handle)
    requires h < |tasks| && |discharged| == |tasks|
    requires forall k :: 0 <= k < |tasks| ==> discharged[k] == tasks[k].(dependencies := discharged[k].dependencies)
    requires forall k :: 0 <= k < |tasks| && tasks[k].id == tasks[h].id ==> discharged[k] == tasks[k]
    requires forall k :: 0 <= k < |tasks| && tasks[k].id != tasks[h].id ==>
               discharged[k].dependencies == RemoveFirst(tasks[k].dependencies, tasks[h].id)
    ensures var r := discharged[h := discharged[h].(status := Completed)];
      forall k :: 0 <= k < |r| ==> r[k] == AfterRun(tasks[k], tasks[h].id, k == h)
  {
    var r := discharged[h := discharged[h].(status := Completed)];
    forall k | 0 <= k < |r|
      ensures r[k] == AfterRun(tasks[k], tasks[h].id, k == h)
    {
      assert r[k].dependencies == Discharge(tasks[k].dependencies, tasks[k].id, tasks[h].id);
    }
  }

  /** Discharging dependencies and marking one task C is an advance. */
  lemma CompletionAdvances(tasks: seq<Task>, r: seq<Task>, h: Handle)
    requires |r| == |tasks| && h < |tasks|
    requires forall k :: 0 <= k < |r| ==> r[k].status == (if k == h then Completed else tasks[k].status)
    requires forall k :: 0 <= k < |r| ==>
               r[k] == tasks[k].(dependencies := r[k].dependencies, status := r[k].status)
    requires forall k :: 0 <= k < |r| ==> multiset(r[k].dependencies) <= multiset(tasks[k].dependencies)
    ensures TasksAdvance(tasks, r)
  {
    forall k | 0 <= k < |r|
      ensures TaskAdvances(tasks[k], r[k])
    {
      assert r[k] == tasks[k].(dependencies := r[k].dependencies, status := r[k].status);
    }
  }

  // ---------------------------------------------------------------------------
  // one iteration of run_task_scheduler

  /** What the scheduler may do to one task between two states: no identity field
      changes, the status only moves forward along N -> I -> C, a completed task keeps
      its duration, and the dependency list only loses entries. */
  predicate TaskAdvances(t: Task, u: Task)
  {
    && SameTask(t, u)
    && Rank(t.status) <= Rank(u.status)
    && (t.status == Completed ==> u.duration == t.duration)
    && multiset(u.dependencies) <= multiset(t.dependencies)
  }

  predicate TasksAdvance(a: seq<Task>, b: seq<Task>)
  {
    |a| == |b| && forall k :: 0 <= k < |a| ==> TaskAdvances(a[k], b[k])
  }

  lemma TasksAdvanceTransitive(a: seq<Task>, b: seq<Task>, c: seq<Task>)
    requires TasksAdvance(a, b) && TasksAdvance(b, c)
    ensures TasksAdvance(a, c)
  {
    forall k | 0 <= k < |a|
      ensures TaskAdvances(a[k], c[k])
    {
      assert TaskAdvances(a[k], b[k]) && TaskAdvances(b[k], c[k]);
    }
  }

  /** The queue stays well formed and every task advances. */
  predicate Advances(s: Scheduler, r: Scheduler)
  {
    WellFormed(r) && TasksAdvance(s.tasks, r.tasks)
  }

  lemma AdvancesTransitive(a: Scheduler, b: Scheduler, c: Scheduler)
    requires Advances(a, b) && Advances(b, c)
    ensures Advances(a, c)
  {
    TasksAdvanceTransitive(a.tasks, b.tasks, c.tasks);
  }

  /** What one loop iteration executed. */
  datatype Slot =
    | Idle                                               // the queue stayed empty
    | Single(task: Handle)                               // one task ran
    | Paired(popped: Handle, promoted: Handle, partner: Handle, total: int)
                                                         // two tasks shared one slot

  datatype Tick = Tick(state: Scheduler, time: int, slot: Slot)

  /** Retiring queued handles (popped and marked C) keeps the scheduler well formed. */
  lemma RetireKeepsWellFormed(s: Scheduler, r: Scheduler, retired: set<Handle>)
    requires WellFormed(s)
    requires |r.tasks| == |s.tasks| && r.queue.heapSize == |r.queue.heap|
    requires forall x :: multiset(r.queue.heap)[x] == (if x in retired then 0 else multiset(s.queue.heap)[x])
    requires forall k :: 0 <= k < |s.tasks| ==>
               r.tasks[k].status == (if k in retired then Completed else s.tasks[k].status)
    ensures WellFormed(r)
  {
    forall j | 0 <= j < |r.queue.heap|
      ensures r.queue.heap[j] < |r.tasks|
    {
      var x := r.queue.heap[j];
      assert x in multiset(r.queue.heap);
      assert x in multiset(s.queue.heap);
      var i :| 0 <= i < |s.queue.heap| && s.queue.heap[i] == x;
    }
    forall x | x in r.queue.heap
      ensures multiset(r.queue.heap)[x] == 1
    {
      assert x in multiset(r.queue.heap);
    }
    forall k | 0 <= k < |r.tasks|
      ensures r.tasks[k].status == InQueue <==> k in r.queue.heap
    {
      assert k in r.queue.heap <==> k in multiset(r.queue.heap);
      assert k in s.queue.heap <==> k in multiset(s.queue.heap);
    }
  }

  /** The non-multitask branch: run the popped task alone. */
  method ExecuteSingle(s1: Scheduler, h: Handle, rest: MaxHeap<Handle>, time: int) returns (t: Tick)
    requires WellFormed(s1) && |s1.queue.heap| > 0 && h == s1.queue.heap[0]
    requires rest.heapSize == |rest.heap| && multiset(rest.heap) == multiset(s1.queue.heap) - multiset{h}
    ensures t.slot == Single(h) && t.state.queue == rest && Executed(s1, t, time)
  {
    assert s1.tasks[h].status == InQueue;
    var tasks := CompleteTask(s1.tasks, h);
    t := Tick(Scheduler(tasks, rest), time + s1.tasks[h].duration, Single(h));
    RetireKeepsWellFormed(s1, t.state, {h});
  }

  /** The multitask branch after partner `p` was promoted and the second pop took `h2`
      (the partner only if the promotion lifted it to the top) and left `rest`: merge
      the two durations and run the shorter task then the longer one. */
  method ExecutePair(s1: Scheduler, h: Handle, p: Handle, s3: Scheduler, h2: Handle, rest: MaxHeap<Handle>, time: int)
    returns (t: Tick)
    requires WellFormed(s1) && |s1.queue.heap| > 0 && h == s1.queue.heap[0] && s1.tasks[h].multitask
    requires p < |s1.tasks| && p != h && s1.tasks[p].status == InQueue && s1.tasks[p].multitask
    requires |s3.tasks| == |s1.tasks| && s3.tasks == Raised(s1.tasks, p)
    requires h2 != h && h2 in s1.queue.heap && s1.tasks[h2].status == InQueue
    requires rest.heapSize == |rest.heap|
    requires forall x :: multiset(rest.heap)[x] == (if x in {h, h2} then 0 else multiset(s1.queue.heap)[x])
    ensures t.slot.Paired? && t.slot.popped == h && t.slot.promoted == p && t.slot.partner == h2
    ensures t.state.queue == rest
    ensures Executed(s1, t, time)
  {
    var tasks, now, total := MergeAndRun(s1.tasks, s3.tasks, h, h2, time);
    t := Tick(Scheduler(tasks, rest), now, Paired(h, p, h2, total));
    RetireKeepsWellFormed(s1, t.state, {h, h2});
    RetiredPair(s1.queue.heap, rest.heap, h, h2);
  }

  lemma RetiredPair(q: seq<Handle>, rest: seq<Handle>, h: Handle, h2: Handle)
    requires forall x :: multiset(rest)[x] == (if x in {h, h2} then 0 else multiset(q)[x])
    requires DistinctHandles(q) && h in q && h2 in q && h != h2
    ensures multiset(rest) == multiset(q) - multiset{h, h2}
  {
    forall x
      ensures multiset(rest)[x] == (multiset(q) - multiset{h, h2})[x]
    {
      if x in {h, h2} {
        assert x in multiset(q);
      }
    }
  }

  /** The task list after the task behind handle `p` is raised to PromotedPriority. */
  function Raised(tasks: seq<Task>, p: Handle): seq<Task>
    requires p < |tasks|
  {
    tasks[p := tasks[p].(priority := PromotedPriority)]
  }

  /** The second heappop, after `h` was popped and a partner promoted: it returns the
      queue's top slot, another queued task, and leaves every other queued handle. */
  method PopPartner(s1: Scheduler, h: Handle, s3: Scheduler) returns (h2: Handle, rest: MaxHeap<Handle>)
    requires WellFormed(s1) && h in s1.queue.heap
    requires QueueInRange(s3) && |s3.queue.heap| >= 1
    requires multiset(s3.queue.heap) == multiset(s1.queue.heap) - multiset{h}
    ensures h2 == s3.queue.heap[0] && h2 != h && h2 in s1.queue.heap
    ensures h < |s1.tasks| && h2 < |s1.tasks|
    ensures s1.tasks[h].status == InQueue && s1.tasks[h2].status == InQueue
    ensures rest.heapSize == |rest.heap|
    ensures forall x :: multiset(rest.heap)[x] == (if x in {h, h2} then 0 else multiset(s1.queue.heap)[x])
    ensures Pop(s3.queue, Key(s3.tasks)) == Success((h2, rest))
  {
    var j :| 0 <= j < |s1.queue.heap| && s1.queue.heap[j] == h;
    var popped := Pop(s3.queue, Key(s3.tasks));
    h2, rest := popped.value.0, popped.value.1;
    PartnerIsAnotherQueuedTask(s1, h, s3.queue.heap, 0);
    RetireTwo(s1.queue.heap, s3.queue.heap, rest.heap, h, h2);
  }

  /** `update_duration(task, partner)` on the promoted task list, then run the shorter
      task and the longer one: the clock advances by the longer duration in total. */
  method MergeAndRun(before: seq<Task>, promoted: seq<Task>, h: Handle, h2: Handle, time: int)
    returns (r: seq<Task>, now: int, total: int)
    requires |promoted| == |before| && h < |before| && h2 < |before| && h != h2
    requires before[h].status == InQueue && before[h2].status == InQueue
    requires forall k :: 0 <= k < |before| ==> promoted[k] == before[k].(priority := promoted[k].priority)
    ensures total == Max(before[h].duration, before[h2].duration)
    ensures now == time + total
    ensures var m := UpdateDuration(promoted, h, h2);
      && total == m.total && |r| == |before|
      && forall k :: 0 <= k < |r| ==>
           r[k] == AfterRun(AfterRun(m.tasks[k], before[m.first].id, k == m.first), before[m.second].id, k == m.second)
    ensures TasksAdvance(before, r)
    ensures forall k :: 0 <= k < |r| ==> r[k].status == (if k == h || k == h2 then Completed else before[k].status)
    ensures CompletedWork(r) == CompletedWork(before) + total
  {
    var m := UpdateDuration(promoted, h, h2);
    MergeAdvances(before, promoted, h, h2);
    MergeKeepsWork(before, promoted, h, h2);
    total := m.total;
    assert m.tasks[m.first].id == before[m.first].id && m.tasks[m.second].id == before[m.second].id;
    r, now := RunInOrder(m.tasks, m.first, m.second, time);
    TasksAdvanceTransitive(before, m.tasks, r);
  }

  /** The merged task list advances from the pre-promotion list and keeps every status. */
  lemma MergeAdvances(before: seq<Task>, promoted: seq<Task>, h: Handle, h2: Handle)
    requires |promoted| == |before| && h < |before| && h2 < |before| && h != h2
    requires before[h].status == InQueue && before[h2].status == InQueue
    requires forall k :: 0 <= k < |before| ==> promoted[k] == before[k].(priority := promoted[k].priority)
    ensures var m := UpdateDuration(promoted, h, h2);
      && TasksAdvance(before, m.tasks)
      && forall k :: 0 <= k < |before| ==> m.tasks[k].status == before[k].status
  {
    var m := UpdateDuration(promoted, h, h2);
    PriorityOnlyAdvances(before, promoted);
    ShortenQueuedAdvances(promoted, m.second, m.total - promoted[m.first].duration);
    TasksAdvanceTransitive(before, promoted, m.tasks);
  }

  /** Merging touches no completed task, so the completed work is unchanged. */
  lemma MergeKeepsWork(before: seq<Task>, promoted: seq<Task>, h: Handle, h2: Handle)
    requires |promoted| == |before| && h < |before| && h2 < |before|
    requires before[h].status == InQueue && before[h2].status == InQueue
    requires forall k :: 0 <= k < |before| ==> promoted[k] == before[k].(priority := promoted[k].priority)
    ensures CompletedWork(UpdateDuration(promoted, h, h2).tasks) == CompletedWork(before)
  {
    var m := UpdateDuration(promoted, h, h2);
    CompletedWorkSame(before, promoted);
    CompletedWorkUpdate(promoted, m.second, m.tasks[m.second]);
  }

  /** Run two distinct pending tasks back to back: the clock advances by each duration
      in turn and both end completed. */
  method RunInOrder(tasks: seq<Task>, a: Handle, b: Handle, time: int) returns (r: seq<Task>, now: int)
    requires a < |tasks| && b < |tasks| && a != b
    requires tasks[a].status != Completed && tasks[b].status != Completed
    ensures now == time + tasks[a].duration + tasks[b].duration
    ensures |r| == |tasks|
    ensures forall k :: 0 <= k < |r| ==> r[k] == AfterRun(AfterRun(tasks[k], tasks[a].id, k == a), tasks[b].id, k == b)
    ensures TasksAdvance(tasks, r)
    ensures forall k :: 0 <= k < |r| ==> r[k].status == (if k == a || k == b then Completed else tasks[k].status)
    ensures CompletedWork(r) == CompletedWork(tasks) + (now - time)
  {
    now := time + tasks[a].duration;
    var once := CompleteTask(tasks, a);
    assert once[b].duration == tasks[b].duration && once[b].status == tasks[b].status;
    now := now + once[b].duration;
    r := CompleteTask(once, b);
    TasksAdvanceTransitive(tasks, once, r);
  }

  lemma RetireTwo(q: seq<Handle>, mid: seq<Handle>, rest: seq<Handle>, h: Handle, h2: Handle)
    requires DistinctHandles(q) && h in q
    requires multiset(mid) == multiset(q) - multiset{h}
    requires multiset(rest) == multiset(mid) - multiset{h2}
    ensures forall x :: multiset(rest)[x] == (if x in {h, h2} then 0 else multiset(q)[x])
  {
    forall x
      ensures multiset(rest)[x] == (if x in {h, h2} then 0 else multiset(q)[x])
    {
      if x in q {
        assert multiset(q)[x] == 1;
      } else {
        assert multiset(q)[x] == 0;
      }
    }
  }

  /** A handle still queued after `h` was popped is another queued task. */
  lemma PartnerIsAnotherQueuedTask(s1: Scheduler, h: Handle, rest: seq<Handle>, j: nat)
    requires WellFormed(s1) && h in s1.queue.heap
    requires multiset(rest) == multiset(s1.queue.heap) - multiset{h}
    requires j < |rest|
    ensures rest[j] != h && rest[j] < |s1.tasks| && s1.tasks[rest[j]].status == InQueue
  {
    assert rest[j] in multiset(rest);
    assert rest[j] in multiset(s1.queue.heap);
    var i :| 0 <= i < |s1.queue.heap| && s1.queue.heap[i] == rest[j];
  }

  lemma PriorityOnlyAdvances(a: seq<Task>, b: seq<Task>)
    requires |a| == |b|
    requires forall k :: 0 <= k < |a| ==> b[k] == a[k].(priority := b[k].priority)
    ensures TasksAdvance(a, b)
  {
  }

  /** Shortening a task that has not completed is an advance. */
  lemma ShortenQueuedAdvances(a: seq<Task>, k: nat, d: int)
    requires k < |a| && a[k].status != Completed
    ensures TasksAdvance(a, a[k := a[k].(duration := d)])
  {
  }

  /** One iteration of `run_task_scheduler`'s loop: refresh and enqueue ready tasks, pop
      the top task; if it can multitask and a queued partner exists, promote and pop the
      partner and run both in one merged slot; otherwise run the task alone. Each run
      advances the clock, discharges the task's id and marks it C. `refreshed` is the
      state after get_tasks_ready, the one the heappops work on. */
  method Step(s: Scheduler, currentTime: int, rule: PromotionRule) returns (r: Result<Tick, HeapError>, ghost refreshed: Scheduler)
    requires WellFormed(s)
    ensures r.Failure? <==> exists k :: 0 <= k < |s.tasks| && IsReady(s.tasks[k]) && PriorityAt(s.tasks[k].dims, currentTime) < PlaceholderPriority
    ensures r.Failure? <==> Sweep(s, currentTime, |s.tasks|).Failure?
    ensures r.Success? ==> Sweep(s, currentTime, |s.tasks|) == Success((refreshed.tasks, refreshed.queue))
    ensures r.Success? ==> QueueInRange(refreshed) && Chosen(refreshed, r.value, rule)
    ensures r.Success? ==> |refreshed.tasks| == |s.tasks| && forall k :: 0 <= k < |s.tasks| ==> refreshed.tasks[k] == Refreshed(s.tasks[k], currentTime)
    ensures r.Success? ==> multiset(refreshed.queue.heap) == multiset(s.queue.heap) + multiset(ReadyHandles(s.tasks, |s.tasks|))
    ensures r.Success? ==> Executed(refreshed, r.value, currentTime)
    ensures r.Success? ==> Advances(s, r.value.state)
    ensures r.Success? ==> CompletedWork(r.value.state.tasks) == CompletedWork(s.tasks) + (r.value.time - currentTime)
    ensures r.Success? ==> forall x | x in Ran(r.value.slot) :: x < |s.tasks| && (s.tasks[x].status == InQueue || IsReady(s.tasks[x]))
    ensures r.Success? && r.value.slot.Paired? && rule == SiftUpToRoot && (forall k :: 0 <= k < |s.tasks| ==> BinaryWeights(s.tasks[k].dims)) ==>
              r.value.slot.partner == r.value.slot.promoted
  {
    var ready := GetTasksReady(s, currentTime);
    if ready.Failure? {
      return Failure(ready.error), s;
    }
    var s1 := ready.value;
    refreshed := s1;
    var tick := RunRefreshed(s, s1, currentTime, rule);
    r := Success(tick);
  }

  /** The iteration after get_tasks_ready produced `s1`: nothing when the queue is
      empty, otherwise the heappops and the run. */
  method RunRefreshed(s: Scheduler, s1: Scheduler, currentTime: int, rule: PromotionRule) returns (t: Tick)
    requires WellFormed(s) && WellFormed(s1) && |s1.tasks| == |s.tasks|
    requires forall k :: 0 <= k < |s.tasks| ==> s1.tasks[k] == Refreshed(s.tasks[k], currentTime)
    ensures Executed(s1, t, currentTime) && Chosen(s1, t, rule)
    ensures Advances(s, t.state)
    ensures CompletedWork(t.state.tasks) == CompletedWork(s.tasks) + (t.time - currentTime)
    ensures forall x | x in Ran(t.slot) :: x < |s.tasks| && (s.tasks[x].status == InQueue || IsReady(s.tasks[x]))
    ensures t.slot.Paired? && rule == SiftUpToRoot && (forall k :: 0 <= k < |s.tasks| ==> BinaryWeights(s.tasks[k].dims)) ==>
              t.slot.partner == t.slot.promoted
  {
    RefreshAdvances(s, s1, currentTime);
    if |s1.queue.heap| == 0 {
      t := Tick(s1, currentTime, Idle);
    } else {
      t := Dispatch(s1, currentTime, rule);
      if t.slot.Paired? && rule == SiftUpToRoot && (forall k :: 0 <= k < |s.tasks| ==> BinaryWeights(s.tasks[k].dims)) {
        RefreshedBelowPromoted(s, s1, currentTime);
      }
    }
    LiftTick(s, s1, t, currentTime);
  }

  /** The handles a slot ran. */
  function Ran(slot: Slot): set<Handle>
  {
    match slot
    case Idle => {}
    case Single(h) => {h}
    case Paired(a, _, b, _) => {a, b}
  }

  /** What one iteration did, seen from the state its heappops worked on: the scheduler
      advanced and the clock moved by exactly the work completed; an idle slot changed
      nothing. */
  predicate Executed(s1: Scheduler, t: Tick, time: int)
  {
    && Advances(s1, t.state)
    && CompletedWork(t.state.tasks) == CompletedWork(s1.tasks) + (t.time - time)
    && |t.state.tasks| == |s1.tasks|
    && match t.slot
       case Idle => t.state == s1 && t.time == time && |s1.queue.heap| == 0
       case Single(h) => RanSingle(s1, t, time, h)
       case Paired(a, p, b, total) => RanPair(s1, t, time, a, p, b, total)
  }

  /** A single slot ran the queue's top task: it left the queue, every task had its id
      discharged, it alone was marked C, and the clock moved by its duration. */
  predicate RanSingle(s1: Scheduler, t: Tick, time: int, h: Handle)
    requires |t.state.tasks| == |s1.tasks|
  {
    && |s1.queue.heap| > 0 && h == s1.queue.heap[0]
    && h < |s1.tasks| && s1.tasks[h].status == InQueue
    && multiset(t.state.queue.heap) == multiset(s1.queue.heap) - multiset{h}
    && (forall k :: 0 <= k < |s1.tasks| ==> t.state.tasks[k] == AfterRun(s1.tasks[k], s1.tasks[h].id, k == h))
    && t.time == time + s1.tasks[h].duration
  }

  /** A paired slot popped the top `a` (a multitask task), raised a queued multitask
      partner `p` to PromotedPriority, popped a second queued task `b`, merged the two
      durations and ran the shorter then the longer: both left the queue, both ids were
      discharged in that order, those two alone were marked C, and the clock moved by
      the longer duration. */
  predicate RanPair(s1: Scheduler, t: Tick, time: int, a: Handle, p: Handle, b: Handle, total: int)
    requires |t.state.tasks| == |s1.tasks|
  {
    && |s1.queue.heap| > 0 && a == s1.queue.heap[0]
    && a < |s1.tasks| && p < |s1.tasks| && b < |s1.tasks| && a != p && a != b
    && s1.tasks[a].status == InQueue && s1.tasks[p].status == InQueue && s1.tasks[b].status == InQueue
    && s1.tasks[a].multitask && s1.tasks[p].multitask
    && multiset(t.state.queue.heap) == multiset(s1.queue.heap) - multiset{a, b}
    && var m := UpdateDuration(Raised(s1.tasks, p), a, b);
       && total == m.total && t.time == time + total
       && forall k :: 0 <= k < |s1.tasks| ==>
            t.state.tasks[k] == AfterRun(AfterRun(m.tasks[k], s1.tasks[m.first].id, k == m.first), s1.tasks[m.second].id, k == m.second)
  }

  /** Some handle of `heap` names a task that can multitask. */
  predicate HasMultitask(tasks: seq<Task>, heap: seq<Handle>)
  {
    exists i :: 0 <= i < |heap| && heap[i] < |tasks| && tasks[heap[i]].multitask
  }

  /** Which handles an iteration's heappops took, as run_task_scheduler orders them.
      The queue left behind is what the last pop left. */
  predicate Chosen(s1: Scheduler, t: Tick, rule: PromotionRule)
    requires QueueInRange(s1)
  {
    match t.slot
    case Idle => |s1.queue.heap| == 0
    case Single(h) => PoppedAlone(s1, h, t.state.queue)
    case Paired(a, p, b, _) => PoppedPair(s1, a, p, b, t.state.queue, rule)
  }

  /** A single slot: `h` is the top of the first pop, taken alone because it cannot
      multitask or no task left in the queue can. */
  predicate PoppedAlone(s1: Scheduler, h: Handle, q: MaxHeap<Handle>)
    requires QueueInRange(s1)
  {
    && Pop(s1.queue, Key(s1.tasks)) == Success((h, q))
    && !(s1.tasks[h].multitask && HasMultitask(s1.tasks, q.heap))
  }

  /** A paired slot: `a` is the top of the first pop and can multitask, and the partner
      search and second pop on what the first pop left took `p` and `b`. */
  predicate PoppedPair(s1: Scheduler, a: Handle, p: Handle, b: Handle, q: MaxHeap<Handle>, rule: PromotionRule)
    requires QueueInRange(s1)
  {
    && Pop(s1.queue, Key(s1.tasks)).Success?
    && Pop(s1.queue, Key(s1.tasks)).value.0 == a
    && s1.tasks[a].multitask
    && PartnerPopped(Scheduler(s1.tasks, Pop(s1.queue, Key(s1.tasks)).value.1), p, b, q, rule)
  }

  /** After the first pop left `s2`: the first multitask slot of `s2`'s queue list holds
      `p`, and popping the queue after `p`'s promotion yields `b` and leaves `q`. */
  predicate PartnerPopped(s2: Scheduler, p: Handle, b: Handle, q: MaxHeap<Handle>, rule: PromotionRule)
  {
    && QueueInRange(s2)
    && exists i :: 0 <= i < |s2.queue.heap| && FirstMultitask(s2, i) && p == s2.queue.heap[i] && Pop(Promote(s2, i, rule).queue, Key(Promote(s2, i, rule).tasks)) == Success((b, q))
  }

  /** The first multitask slot of a queue list is unique. */
  lemma FirstMultitaskUnique(s: Scheduler, i: nat, j: nat)
    requires QueueInRange(s) && FirstMultitask(s, i) && FirstMultitask(s, j)
    ensures i == j
  {
  }

  /** An iteration's outcome is determined by the state its heappops work on: two ticks
      that both ran as `Executed` and `Chosen` describe are the same tick. */
  lemma ChosenDetermines(s1: Scheduler, t: Tick, u: Tick, time: int, rule: PromotionRule)
    requires WellFormed(s1)
    requires Executed(s1, t, time) && Chosen(s1, t, rule)
    requires Executed(s1, u, time) && Chosen(s1, u, rule)
    ensures t == u
  {
    ChosenPinsPops(s1, t, u, rule);
    ExecutedDetermines(s1, t, u, time);
  }

  /** Which handles the pops took, and the queue they left, depend only on the state. */
  lemma ChosenPinsPops(s1: Scheduler, t: Tick, u: Tick, rule: PromotionRule)
    requires QueueInRange(s1) && Chosen(s1, t, rule) && Chosen(s1, u, rule)
    ensures t.slot.Idle? <==> u.slot.Idle?
    ensures t.slot.Single? ==> t.slot == u.slot && t.state.queue == u.state.queue
    ensures t.slot.Paired? ==> SamePops(t.slot, u.slot) && t.state.queue == u.state.queue
  {
    match (t.slot, u.slot)
    case (Idle, _) =>
      ChosenIdleIffEmpty(s1, u, rule);
    case (_, Idle) =>
      ChosenIdleIffEmpty(s1, t, rule);
    case (Single(h), Single(h')) =>
      PoppedAloneUnique(s1, h, t.state.queue, h', u.state.queue);
    case (Single(h), Paired(a, p, b, _)) =>
      PairNeedsPartner(s1, a, p, b, u.state.queue, rule);
    case (Paired(a, p, b, _), Single(h)) =>
      PairNeedsPartner(s1, a, p, b, t.state.queue, rule);
    case (Paired(a, p, b, _), Paired(a', p', b', _)) =>
      PoppedPairUnique(s1, a, p, b, t.state.queue, a', p', b', u.state.queue, rule);
  }

  /** An iteration is idle exactly when the queue is empty. */
  lemma ChosenIdleIffEmpty(s1: Scheduler, t: Tick, rule: PromotionRule)
    requires QueueInRange(s1) && Chosen(s1, t, rule)
    ensures t.slot.Idle? <==> |s1.queue.heap| == 0
  {
  }

  lemma PoppedAloneUnique(s1: Scheduler, h: Handle, q: MaxHeap<Handle>, h': Handle, q': MaxHeap<Handle>)
    requires QueueInRange(s1) && PoppedAlone(s1, h, q) && PoppedAlone(s1, h', q')
    ensures h == h' && q == q'
  {
  }

  /** The pair branch runs only when the popped task can multitask and a task left in
      the queue can, which is exactly when the single branch does not. */
  lemma PairNeedsPartner(s1: Scheduler, a: Handle, p: Handle, b: Handle, q: MaxHeap<Handle>, rule: PromotionRule)
    requires QueueInRange(s1) && PoppedPair(s1, a, p, b, q, rule)
    ensures s1.tasks[a].multitask && HasMultitask(s1.tasks, Pop(s1.queue, Key(s1.tasks)).value.1.heap)
  {
    var s2 := Scheduler(s1.tasks, Pop(s1.queue, Key(s1.tasks)).value.1);
    var i :| 0 <= i < |s2.queue.heap| && FirstMultitask(s2, i);
    assert s2.queue.heap[i] < |s1.tasks| && s1.tasks[s2.queue.heap[i]].multitask;
  }

  lemma PoppedPairUnique(s1: Scheduler, a: Handle, p: Handle, b: Handle, q: MaxHeap<Handle>,
                         a': Handle, p': Handle, b': Handle, q': MaxHeap<Handle>, rule: PromotionRule)
    requires QueueInRange(s1) && PoppedPair(s1, a, p, b, q, rule) && PoppedPair(s1, a', p', b', q', rule)
    ensures a == a' && p == p' && b == b' && q == q'
  {
    var s2 := Scheduler(s1.tasks, Pop(s1.queue, Key(s1.tasks)).value.1);
    PartnerPoppedUnique(s2, p, b, q, p', b', q', rule);
  }

  /** The partner search and the second pop have one outcome. */
  lemma PartnerPoppedUnique(s2: Scheduler, p: Handle, b: Handle, q: MaxHeap<Handle>,
                            p': Handle, b': Handle, q': MaxHeap<Handle>, rule: PromotionRule)
    requires PartnerPopped(s2, p, b, q, rule) && PartnerPopped(s2, p', b', q', rule)
    ensures p == p' && b == b' && q == q'
  {
    var i :| 0 <= i < |s2.queue.heap| && FirstMultitask(s2, i) && p == s2.queue.heap[i]
      && Pop(Promote(s2, i, rule).queue, Key(Promote(s2, i, rule).tasks)) == Success((b, q));
    var j :| 0 <= j < |s2.queue.heap| && FirstMultitask(s2, j) && p' == s2.queue.heap[j]
      && Pop(Promote(s2, j, rule).queue, Key(Promote(s2, j, rule).tasks)) == Success((b', q'));
    FirstMultitaskUnique(s2, i, j);
  }

  /** Two paired slots that took the same three handles. */
  predicate SamePops(x: Slot, y: Slot)
    requires x.Paired?
  {
    y.Paired? && x.popped == y.popped && x.promoted == y.promoted && x.partner == y.partner
  }

  /** Given the same pops and the same queue left behind, the runs agree on the tasks,
      the clock and the merged slot length. */
  lemma ExecutedDetermines(s1: Scheduler, t: Tick, u: Tick, time: int)
    requires Executed(s1, t, time) && Executed(s1, u, time)
    requires t.slot.Idle? <==> u.slot.Idle?
    requires t.slot.Single? ==> t.slot == u.slot && t.state.queue == u.state.queue
    requires t.slot.Paired? ==> SamePops(t.slot, u.slot) && t.state.queue == u.state.queue
    ensures t == u
  {
    if !t.slot.Idle? {
      assert t.slot == u.slot;
      assert t.state.tasks == u.state.tasks;
    }
  }

  /** Seen from the state before the refresh: the scheduler advanced, the clock moved by
      the work completed, and every task the slot ran was queued or ready. */
  lemma LiftTick(s: Scheduler, s1: Scheduler, t: Tick, time: int)
    requires Advances(s, s1) && CompletedWork(s1.tasks) == CompletedWork(s.tasks)
    requires forall k :: 0 <= k < |s.tasks| ==> s1.tasks[k] == Refreshed(s.tasks[k], time)
    requires Executed(s1, t, time)
    ensures Advances(s, t.state)
    ensures CompletedWork(t.state.tasks) == CompletedWork(s.tasks) + (t.time - time)
    ensures forall x | x in Ran(t.slot) :: x < |s.tasks| && (s.tasks[x].status == InQueue || IsReady(s.tasks[x]))
  {
    AdvancesTransitive(s, s1, t.state);
    RanWereQueued(s1, t, time);
    forall x | x in Ran(t.slot)
      ensures x < |s.tasks| && (s.tasks[x].status == InQueue || IsReady(s.tasks[x]))
    {
      assert s1.tasks[x] == Refreshed(s.tasks[x], time);
    }
  }

  /** Every task a slot ran was queued when the heappops began. */
  lemma RanWereQueued(s1: Scheduler, t: Tick, time: int)
    requires Executed(s1, t, time)
    ensures forall x | x in Ran(t.slot) :: x < |s1.tasks| && s1.tasks[x].status == InQueue
  {
  }

  /** The enqueue sweep is an advance that keeps the completed work. */
  lemma RefreshAdvances(s: Scheduler, s1: Scheduler, curTime: int)
    requires WellFormed(s1) && |s1.tasks| == |s.tasks|
    requires forall k :: 0 <= k < |s.tasks| ==> s1.tasks[k] == Refreshed(s.tasks[k], curTime)
    ensures Advances(s, s1)
    ensures CompletedWork(s1.tasks) == CompletedWork(s.tasks)
  {
    CompletedWorkSame(s.tasks, s1.tasks);
  }

  /** With weights in {0, 1} no refreshed task reaches PromotedPriority. */
  lemma RefreshedBelowPromoted(s: Scheduler, s1: Scheduler, curTime: int)
    requires |s1.tasks| == |s.tasks|
    requires forall k :: 0 <= k < |s.tasks| ==> s1.tasks[k] == Refreshed(s.tasks[k], curTime)
    requires forall k :: 0 <= k < |s.tasks| ==> BinaryWeights(s.tasks[k].dims)
    ensures forall k :: 0 <= k < |s1.tasks| ==> s1.tasks[k].priority < PromotedPriority
  {
    forall k | 0 <= k < |s1.tasks|
      ensures s1.tasks[k].priority < PromotedPriority
    {
      PriorityInRange(s.tasks[k].dims, curTime);
    }
  }

  /** The rest of an iteration once the queue is non-empty: `heappop`, then the
      multitask branch when the popped task can multitask and a partner is queued,
      otherwise the single branch. */
  method Dispatch(s1: Scheduler, currentTime: int, rule: PromotionRule) returns (t: Tick)
    requires WellFormed(s1) && |s1.queue.heap| > 0
    ensures Executed(s1, t, currentTime) && !t.slot.Idle?
    ensures Chosen(s1, t, rule)
    ensures t.slot.Paired? && rule == SiftUpToRoot && (forall k :: 0 <= k < |s1.tasks| ==> s1.tasks[k].priority < PromotedPriority) ==>
              t.slot.partner == t.slot.promoted
  {
    var h, s2 := PopTop(s1);
    var found := false;
    if s1.tasks[h].multitask {
      found, t := TryPair(s1, h, s2, currentTime, rule);
    }
    if !found {
      t := ExecuteSingle(s1, h, s2.queue, currentTime);
    }
  }

  /** The first `heappop` of an iteration: the top handle leaves the queue. */
  method PopTop(s1: Scheduler) returns (h: Handle, s2: Scheduler)
    requires WellFormed(s1) && |s1.queue.heap| > 0
    ensures h == s1.queue.heap[0] && s2.tasks == s1.tasks
    ensures QueueInRange(s2) && DistinctHandles(s2.queue.heap)
    ensures multiset(s2.queue.heap) == multiset(s1.queue.heap) - multiset{h}
    ensures Pop(s1.queue, Key(s1.tasks)) == Success((h, s2.queue))
  {
    var popped := Pop(s1.queue, Key(s1.tasks));
    h := popped.value.0;
    s2 := Scheduler(s1.tasks, popped.value.1);
    SameContentsInRange(s2.queue.heap, s1.queue.heap, |s1.tasks|);
    SubMultisetDistinct(s2.queue.heap, s1.queue.heap);
  }

  /** The multitask branch: `get_multitask()` looks for a queued partner; when there is
      one it is promoted, popped, and run together with `h`. */
  method TryPair(s1: Scheduler, h: Handle, s2: Scheduler, currentTime: int, rule: PromotionRule)
    returns (found: bool, t: Tick)
    requires WellFormed(s1) && |s1.queue.heap| > 0 && h == s1.queue.heap[0] && s1.tasks[h].multitask
    requires s2.tasks == s1.tasks && QueueInRange(s2) && DistinctHandles(s2.queue.heap)
    requires multiset(s2.queue.heap) == multiset(s1.queue.heap) - multiset{h}
    ensures found <==> exists i :: 0 <= i < |s2.queue.heap| && s1.tasks[s2.queue.heap[i]].multitask
    ensures found ==> Executed(s1, t, currentTime) && t.slot.Paired? && t.slot.popped == h
    ensures found ==> PartnerPopped(s2, t.slot.promoted, t.slot.partner, t.state.queue, rule)
    ensures found && rule == SiftUpToRoot && (forall k :: 0 <= k < |s1.tasks| ==> s1.tasks[k].priority < PromotedPriority) ==>
              t.slot.partner == t.slot.promoted
  {
    var s3, i;
    found, s3, i := GetMultitask(s2, rule);
    t := Tick(s1, currentTime, Idle);
    if found {
      var p := s2.queue.heap[i];
      PartnerIsAnotherQueuedTask(s1, h, s2.queue.heap, i);
      var h2, rest := PopPartner(s1, h, s3);
      t := ExecutePair(s1, h, p, s3, h2, rest, currentTime);
      if rule == SiftUpToRoot && (forall k :: 0 <= k < |s1.tasks| ==> s1.tasks[k].priority < PromotedPriority) {
        PromotedPartnerAtRoot(s2, i);
      }
    }
  }

  lemma SubMultisetDistinct(a: seq<Handle>, b: seq<Handle>)
    requires multiset(a) <= multiset(b) && DistinctHandles(b)
    ensures DistinctHandles(a)
  {
    forall x | x in a
      ensures multiset(a)[x] == 1
    {
      assert x in multiset(a);
    }
  }

  /** Distinct handles sit at distinct positions. */
  lemma DistinctAt(s: seq<Handle>, i: nat, j: nat)
    requires DistinctHandles(s) && i < |s| && j < |s| && i != j
    ensures s[i] != s[j]
  {
    if s[i] == s[j] {
      if i < j {
        RepeatedHandle(s, i, j);
      } else {
        RepeatedHandle(s, j, i);
      }
    }
  }

  lemma RepeatedHandle(s: seq<Handle>, lo: nat, hi: nat)
    requires lo < hi < |s| && s[lo] == s[hi]
    ensures multiset(s)[s[lo]] >= 2
  {
    assert s == s[..lo] + [s[lo]] + s[lo + 1..hi] + [s[hi]] + s[hi + 1..];
  }

  /** The corrected promotion puts the partner at the root whenever every other task
      ranks below PromotedPriority, so the next heappop returns the partner. */
  lemma PromotedPartnerAtRoot(s: Scheduler, i: nat)
    requires QueueInRange(s) && DistinctHandles(s.queue.heap) && i < |s.queue.heap|
    requires forall k :: 0 <= k < |s.tasks| ==> s.tasks[k].priority < PromotedPriority
    ensures PromoteToRoot(s, i).queue.heap[0] == s.queue.heap[i]
    ensures Pop(PromoteToRoot(s, i).queue, Key(PromoteToRoot(s, i).tasks)).Success?
    ensures Pop(PromoteToRoot(s, i).queue, Key(PromoteToRoot(s, i).tasks)).value.0 == s.queue.heap[i]
  {
    var heap := s.queue.heap;
    var tasks := RaisePartner(s, i);
    var key := Key(tasks);
    forall j | 0 <= j < |heap| && j != i
      ensures key(heap[j]) < key(heap[i])
    {
      DistinctAt(heap, i, j);
    }
    SiftUpReachesRoot(heap, key, i);
  }

  /** As written, promotion sifts the partner DOWN from its slot, so it can never leave
      its subtree: unless the partner already sat at the root, the root is untouched and
      the next heappop returns the same task it would have returned without promotion. */
  lemma SiftDownPromotionKeepsRoot(s: Scheduler, i: nat)
    requires QueueInRange(s) && 0 < i < |s.queue.heap|
    ensures PromoteAndReheapify(s, i).queue.heap[0] == s.queue.heap[0]
  {
    var tasks := RaisePartner(s, i);
    var b := Heapify(s.queue.heap, s.queue.heapSize, Key(tasks), i);
    assert !HeapShape.InSubtree(i, 0);
    assert b[0] == s.queue.heap[0];
  }

  /** Two queued tasks: a plain one of priority 5 on top and a multitask one of
      priority 3 below it, each priority the one its dimensions give. */
  /** Two ready tasks and an empty queue, the first of higher priority and unable to
      multitask: get_tasks_ready pushes them in list order, which leaves the first at
      the top, so the iteration runs it, alone. */
  lemma HigherReadyRunsFirst(s: Scheduler, curTime: int, refreshed: Scheduler, t: Tick, rule: PromotionRule)
    requires |s.tasks| == 2 && s.queue.heapSize == |s.queue.heap| == 0
    requires IsReady(s.tasks[0]) && IsReady(s.tasks[1]) && !s.tasks[0].multitask
    requires PriorityAt(s.tasks[0].dims, curTime) > PriorityAt(s.tasks[1].dims, curTime) >= PlaceholderPriority
    requires Sweep(s, curTime, 2) == Success((refreshed.tasks, refreshed.queue))
    requires QueueInRange(refreshed) && Chosen(refreshed, t, rule)
    ensures refreshed.queue.heap == [0, 1]
    ensures t.slot == Single(0)
  {
    SweepOrdersTwo(s, curTime);
    assert !refreshed.tasks[0].multitask;
  }

  /** With an empty queue and two ready tasks, the sweep pushes both in list order; the
      queue list then starts with the one of higher priority. */
  lemma SweepOrdersTwo(s: Scheduler, curTime: int)
    requires |s.tasks| == 2 && s.queue.heapSize == |s.queue.heap| == 0
    requires IsReady(s.tasks[0]) && IsReady(s.tasks[1])
    requires PriorityAt(s.tasks[0].dims, curTime) > PriorityAt(s.tasks[1].dims, curTime) >= PlaceholderPriority
    ensures var r := Sweep(s, curTime, 2);
      && r.Success? && r.value.1.heap == [0, 1]
      && forall k :: 0 <= k < 2 ==> r.value.0[k] == Refreshed(s.tasks[k], curTime)
  {
    SweepStep(s, curTime, s.tasks, s.queue, 0, SweepPass(s.tasks, s.queue, 0, curTime));
    PassPushesReady(s.tasks, s.queue, 0, curTime);
    var first := Sweep(s, curTime, 1);
    var q1 := first.value.1;
    assert q1.heap[0] in multiset(q1.heap);
    assert q1.heap == [0];
    SweepStep(s, curTime, first.value.0, q1, 1, SweepPass(first.value.0, q1, 1, curTime));
    PassPushesReady(first.value.0, q1, 1, curTime);
    var r := Sweep(s, curTime, 2);
    var q2 := r.value.1;
    assert Valid(q2, Key(r.value.0));
    assert q2.heap[0] in multiset(q2.heap) && q2.heap[1] in multiset(q2.heap);
    assert Key(r.value.0)(q2.heap[0]) >= Key(r.value.0)(q2.heap[1]);
  }

  function PromotionExample(): (s: Scheduler)
    ensures WellFormed(s)
    ensures forall k, time :: 0 <= k < |s.tasks| ==> s.tasks[k].priority == PriorityAt(s.tasks[k].dims, time)
  {
    var plain := Task(1, "report", 30, [], Dimensions(0, 1, 1, 0, 0), false, 5, InQueue);
    var multi := Task(2, "laundry", 60, [], Dimensions(0, 1, 0, 0, 0), true, 3, InQueue);
    var s := Scheduler([plain, multi], MaxHeap([0, 1], 2));
    assert s.queue.heap[0] == 0 && s.queue.heap[1] == 1;
    assert 0 in s.queue.heap && 1 in s.queue.heap;
    s
  }

  /** The counterexample: after get_multitask finds and promotes the multitask task at
      slot 1 as written, the next heappop returns the plain task, not the partner. */
  lemma PromotionMissesPartner()
    ensures var s := PromotionExample();
      && FirstMultitask(s, 1)
      && var q := PromoteAndReheapify(s, 1).queue;
      && Pop(q, Key(RaisePartner(s, 1))).Success?
      && Pop(q, Key(RaisePartner(s, 1))).value.0 == 0
      && !s.tasks[0].multitask
  {
    var s := PromotionExample();
    SiftDownPromotionKeepsRoot(s, 1);
  }

  /** With the intended promotion the same example pops the partner. */
  lemma PromotionReachesPartner()
    ensures var s := PromotionExample();
      && var q := PromoteToRoot(s, 1).queue;
      && Pop(q, Key(RaisePartner(s, 1))).Success?
      && Pop(q, Key(RaisePartner(s, 1))).value.0 == 1
      && s.tasks[1].multitask
  {
    PromotedPartnerAtRoot(PromotionExample(), 1);
  }

  // ---------------------------------------------------------------------------
  // run_task_scheduler

  datatype RunOutcome =
    | Finished(state: Scheduler, elapsed: int)   // the loop condition became false
    | OutOfFuel(state: Scheduler, time: int)     // the iteration budget ran out first

  /** `run_task_scheduler(starting_time)`, bounded by `fuel` iterations: loop while some
      task has status N or the queue list is non-empty. */
  method RunTaskScheduler(s: Scheduler, startingTime: int, fuel: nat, rule: PromotionRule)
    returns (r: Result<RunOutcome, HeapError>)
    requires WellFormed(s)
    ensures r.Success? ==> Advances(s, r.value.state)
    ensures r.Success? && r.value.Finished? ==>
              forall k :: 0 <= k < |r.value.state.tasks| ==> r.value.state.tasks[k].status == Completed
    ensures r.Success? && r.value.Finished? ==>
              r.value.elapsed == CompletedWork(r.value.state.tasks) - CompletedWork(s.tasks)
  {
    var cur := s;
    var time := startingTime;
    var left := fuel;
    while true
      invariant Advances(s, cur)
      invariant CompletedWork(cur.tasks) == CompletedWork(s.tasks) + (time - startingTime)
      decreases left
    {
      var pending := CheckUnscheduledTasks(cur.tasks);
      if !pending && |cur.queue.heap| == 0 {
        return Success(Finished(cur, time - startingTime));
      }
      if left == 0 {
        return Success(OutOfFuel(cur, time));
      }
      var step;
      ghost var refreshed;
      step, refreshed := Step(cur, time, rule);
      if step.Failure? {
        return Failure(step.error);
      }
      AdvancesTransitive(s, cur, step.value.state);
      cur, time := step.value.state, step.value.time;
      left := left - 1;
    }
  }
}
