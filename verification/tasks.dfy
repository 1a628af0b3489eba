/**
 The task record of the day scheduler (class `Task2`): its fields, the dynamic
 priority computed from its value dimensions, and the comparison by priority.
 */
module Tasks {

  /** The status letters 'N', 'I' and 'C'. */
  datatype Status = NotStarted | InQueue | Completed

  /** Position of a status in the life cycle N -> I -> C. */
  function Rank(s: Status): nat
  {
    match s
    case NotStarted => 0
    case InQueue => 1
    case Completed => 2
  }

  /** The five value dimensions: a strict start time (minutes from midnight, 0 = unset)
      followed by four weights. */
  datatype Dimensions = Dimensions(strictStart: int, w1: int, w2: int, w3: int, w4: int)

  datatype Task = Task(
    id: int,
    description: string,
    duration: int,
    dependencies: seq<int>,
    dims: Dimensions,
    multitask: bool,
    priority: int,
    status: Status)

  /** Priority pinned on a task whose strict start time has been reached. */
  const StrictStartPriority: int := 10

  /** Weights are documented as 0 or 1. */
  predicate BinaryWeights(d: Dimensions)
  {
    0 <= d.w1 <= 1 && 0 <= d.w2 <= 1 && 0 <= d.w3 <= 1 && 0 <= d.w4 <= 1
  }

  predicate StrictStartReached(d: Dimensions, curTime: int)
  {
    d.strictStart <= curTime && d.strictStart != 0
  }

  /** The weighted score 3*w1 + 2*w2 + 3*w3 + w4. */
  function WeightedScore(d: Dimensions): int
  {
    3 * d.w1 + 2 * d.w2 + 3 * d.w3 + d.w4
  }

  /** The priority `updatePriority` assigns at time `curTime`. */
  function PriorityAt(d: Dimensions, curTime: int): int
  {
    if StrictStartReached(d, curTime) then StrictStartPriority else WeightedScore(d)
  }

  /** `updatePriority`: recompute the priority; nothing else about the task changes. */
  function UpdatePriority(t: Task, curTime: int): (r: Task)
    ensures r.priority == PriorityAt(t.dims, curTime)
    ensures r.(priority := t.priority) == t
  {
    t.(priority := PriorityAt(t.dims, curTime))
  }

  /** `__lt__`: comparison by priority only. */
  predicate Lt(a: Task, b: Task)
  {
    a.priority < b.priority
  }

  /** `__gt__` is the converse of `__lt__`. */
  predicate Gt(a: Task, b: Task): (r: bool)
    ensures r <==> Lt(b, a)
  {
    a.priority > b.priority
  }

  /** With weights in {0, 1} the priority lies in [0, 10], and it is 10 exactly
      when the strict start time has been reached. */
  lemma PriorityInRange(d: Dimensions, curTime: int)
    requires BinaryWeights(d)
    ensures 0 <= PriorityAt(d, curTime) <= StrictStartPriority
    ensures PriorityAt(d, curTime) == StrictStartPriority <==> StrictStartReached(d, curTime)
  {
  }

  /** Once the strict start time is reached the task stays at the sentinel for every
      later time, and no task with binary weights is ranked strictly above it. */
  lemma StrictStartDominates(d: Dimensions, other: Dimensions, t: int, later: int)
    requires StrictStartReached(d, t) && t <= later
    requires BinaryWeights(other)
    ensures PriorityAt(d, later) == StrictStartPriority
    ensures PriorityAt(other, later) <= PriorityAt(d, later)
  {
  }
}
