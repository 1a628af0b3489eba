/**
 The array-backed max priority queue (class `MaxHeap`). The list and the
 `heap_size` counter are kept apart, as MaxHeap keeps them; elements are compared
 by an integer key (a task's priority).
 */
module MaxHeaps {
  import opened Results
  import opened HeapShape

  datatype HeapError =
    | PriorityDecrease   // increase_key: the new element ranks below the one it replaces
    | Underflow          // heappop on a heap whose counter is below 1
    | IndexOutOfRange    // maxkey on an empty list

  datatype MaxHeap<T> = MaxHeap(heap: seq<T>, heapSize: nat)

  /** Priority of the placeholder that `heappush` appends before sifting up. */
  const PlaceholderPriority: int := 0

  /** The constructor adopts the list as given and sets the counter to its length. */
  function FromList<T>(heap: seq<T>): (h: MaxHeap<T>)
    ensures h.heap == heap && h.heapSize == |heap|
  {
    MaxHeap(heap, |heap|)
  }

  /** The constructor does not heapify: the adopted list is heap-ordered exactly when
      the given list already was, as an empty or one-element list always is. */
  lemma FromListKeepsOrder<T>(heap: seq<T>, key: T -> int)
    ensures Valid(FromList(heap), key) <==> IsHeap(heap, |heap|, key)
    ensures |heap| <= 1 ==> Valid(FromList(heap), key)
  {
  }

  /** An out-of-order list stays out of order once adopted. */
  lemma FromListDoesNotHeapify()
    ensures !Valid(FromList([1, 2]), (x: int) => x)
  {
    assert Parent(1) == 0;
  }

  /** Heap order on the first `size` slots: no element ranks above its parent. */
  predicate IsHeap<T>(a: seq<T>, size: nat, key: T -> int)
    requires size <= |a|
  {
    forall j :: 0 < j < size ==> key(a[Parent(j)]) >= key(a[j])
  }

  /** Heap order inside the subtree rooted at `root`, restricted to the first `size` slots. */
  predicate HeapFrom<T>(a: seq<T>, size: nat, key: T -> int, root: nat)
    requires size <= |a|
  {
    forall j :: root < j < size && InSubtree(root, j) ==> key(a[Parent(j)]) >= key(a[j])
  }

  /** Heap order on every edge except the one into slot `i`; moreover the parent of `i`
      ranks above the children of `i` (the loop invariant of a sift-up). */
  predicate AlmostHeap<T>(a: seq<T>, size: nat, key: T -> int, i: nat)
    requires size <= |a|
  {
    && (forall j :: 0 < j < size && j != i ==> key(a[Parent(j)]) >= key(a[j]))
    && (0 < i < size ==> forall j :: 0 < j < size && Parent(j) == i ==> key(a[Parent(i)]) >= key(a[j]))
  }

  /** A well-formed heap: the counter stays within the list and the counted prefix is heap-ordered. */
  predicate Valid<T>(h: MaxHeap<T>, key: T -> int)
  {
    h.heapSize <= |h.heap| && IsHeap(h.heap, h.heapSize, key)
  }

  function Swap<T>(a: seq<T>, i: nat, j: nat): (b: seq<T>)
    requires i < |a| && j < |a|
    ensures |b| == |a| && b[i] == a[j] && b[j] == a[i]
    ensures forall k :: 0 <= k < |a| && k != i && k != j ==> b[k] == a[k]
    ensures multiset(b) == multiset(a)
  {
    a[i := a[j]][j := a[i]]
  }

  // ---------------------------------------------------------------------------
  // heapify: recursive sift-down

  /** `heapify(i)`: swap slot `i` with its larger child while that child ranks strictly
      higher, then continue from the child. Only slots of the subtree at `i` inside the
      counted prefix move; the new occupant of `i` is the largest of `i` and its children. */
  function Heapify<T>(a: seq<T>, size: nat, key: T -> int, i: nat): (b: seq<T>)
    requires size <= |a|
    ensures |b| == |a|
    ensures forall j :: 0 <= j < |a| && !(j < size && InSubtree(i, j)) ==> b[j] == a[j]
    ensures i < size ==> key(b[i]) >= key(a[i])
    ensures i < size && Left(i) < size ==> key(b[i]) >= key(a[Left(i)])
    ensures i < size && Right(i) < size ==> key(b[i]) >= key(a[Right(i)])
    ensures i < size ==>
              || b[i] == a[i]
              || (Left(i) < size && b[i] == a[Left(i)])
              || (Right(i) < size && b[i] == a[Right(i)])
    decreases size - i
  {
    var largest := Largest(a, size, key, i);
    if largest != i then
      ChildSubtreesInside(i, largest);
      Heapify(Swap(a, i, largest), size, key, largest)
    else
      a
  }

  /** heapify only swaps, so the list keeps its contents. */
  lemma {:induction false} HeapifyPermutes<T>(a: seq<T>, size: nat, key: T -> int, i: nat)
    requires size <= |a|
    ensures multiset(Heapify(a, size, key, i)) == multiset(a)
    decreases size - i
  {
    var largest := Largest(a, size, key, i);
    if largest != i {
      HeapifyPermutes(Swap(a, i, largest), size, key, largest);
    }
  }

  /** The slot among `i` and its children (inside the counted prefix) that ranks highest,
      preferring `i`, then the left child, on ties. */
  function Largest<T>(a: seq<T>, size: nat, key: T -> int, i: nat): (m: nat)
    requires size <= |a|
    ensures m == i || (m == Left(i) && m < size) || (m == Right(i) && m < size)
    ensures m != i ==> key(a[m]) > key(a[i])
    ensures i < size ==> key(a[m]) >= key(a[i])
    ensures Left(i) < size ==> key(a[m]) >= key(a[Left(i)])
    ensures Right(i) < size ==> key(a[m]) >= key(a[Right(i)])
  {
    var l := Left(i);
    var r := Right(i);
    var m := if l < size && key(a[l]) > key(a[i]) then l else i;
    if r < size && key(a[r]) > key(a[m]) then r else m
  }

  /** Heap order inside a subtree carries over to the subtree of a child. */
  lemma HeapFromChild<T>(a: seq<T>, size: nat, key: T -> int, i: nat, c: nat)
    requires size <= |a|
    requires c == Left(i) || c == Right(i)
    requires HeapFrom(a, size, key, i)
    ensures HeapFrom(a, size, key, c)
  {
    ChildSubtreesInside(i, c);
  }

  /** Heap order inside a subtree depends only on the slots of that subtree. */
  lemma HeapFromSameSlots<T>(a: seq<T>, b: seq<T>, size: nat, key: T -> int, root: nat)
    requires size <= |a| && size <= |b|
    requires forall j :: root <= j < size && InSubtree(root, j) ==> a[j] == b[j]
    requires HeapFrom(a, size, key, root)
    ensures HeapFrom(b, size, key, root)
  {
  }

  /** Heapify's contract: if the subtrees of both children are heap-ordered, the subtree
      of `i` is heap-ordered afterwards. */
  lemma {:induction false} HeapifyOrders<T>(a: seq<T>, size: nat, key: T -> int, i: nat)
    requires size <= |a|
    requires HeapFrom(a, size, key, Left(i)) && HeapFrom(a, size, key, Right(i))
    ensures HeapFrom(Heapify(a, size, key, i), size, key, i)
    decreases size - i
  {
    var largest := Largest(a, size, key, i);
    var b := Heapify(a, size, key, i);
    if largest == i {
      forall j | i < j < size && InSubtree(i, j)
        ensures key(b[Parent(j)]) >= key(b[j])
      {
        BelowAChild(i, j);
      }
    } else {
      var c := Swap(a, i, largest);
      HeapFromChild(a, size, key, largest, Left(largest));
      HeapFromChild(a, size, key, largest, Right(largest));
      HeapFromSameSlots(a, c, size, key, Left(largest));
      HeapFromSameSlots(a, c, size, key, Right(largest));
      HeapifyOrders(c, size, key, largest);
      SwapDownOrders(a, size, key, i);
    }
  }

  /** The step of a sift-down that moved the slot's value down: once the lower
      subtree is heap-ordered, so is the subtree at `i`. */
  lemma SwapDownOrders<T>(a: seq<T>, size: nat, key: T -> int, i: nat)
    requires size <= |a|
    requires HeapFrom(a, size, key, Left(i)) && HeapFrom(a, size, key, Right(i))
    requires Largest(a, size, key, i) != i
    requires var l := Largest(a, size, key, i);
      HeapFrom(Heapify(Swap(a, i, l), size, key, l), size, key, l)
    ensures HeapFrom(Heapify(a, size, key, i), size, key, i)
  {
    var largest := Largest(a, size, key, i);
    var b := Heapify(a, size, key, i);
    assert b == Heapify(Swap(a, i, largest), size, key, largest);
    forall j | i < j < size && InSubtree(i, j)
      ensures key(b[Parent(j)]) >= key(b[j])
    {
      BelowAChild(i, j);
      if j == largest {
        HeapifyChildBound(a, size, key, i, largest);
      } else if !InSubtree(largest, j) {
        SwapDownOtherSide(a, size, key, i, j);
      }
    }
  }

  /** The sibling subtree of the child that moved up is untouched by the sift-down,
      and the element moved up ranks above its root. */
  lemma SwapDownOtherSide<T>(a: seq<T>, size: nat, key: T -> int, i: nat, j: nat)
    requires size <= |a|
    requires HeapFrom(a, size, key, Left(i)) && HeapFrom(a, size, key, Right(i))
    requires Largest(a, size, key, i) != i
    requires j < size && (InSubtree(Left(i), j) || InSubtree(Right(i), j))
    requires !InSubtree(Largest(a, size, key, i), j)
    ensures var b := Heapify(a, size, key, i); key(b[Parent(j)]) >= key(b[j])
  {
    var largest := Largest(a, size, key, i);
    var other := if largest == Left(i) then Right(i) else Left(i);
    var c := Swap(a, i, largest);
    var b := Heapify(c, size, key, largest);
    assert b == Heapify(a, size, key, i);
    assert InSubtree(other, j);
    assert b[j] == a[j];
    if j == other {
      assert b[i] == a[largest];
    } else {
      var p := Parent(j);
      assert InSubtree(other, p);
      SiblingSubtreesDisjoint(i, p);
      assert b[p] == a[p];
    }
  }

  /** After the swap at `i`, the element that heapify leaves at the child `largest`
      ranks no higher than the element moved up to `i`. */
  lemma HeapifyChildBound<T>(a: seq<T>, size: nat, key: T -> int, i: nat, largest: nat)
    requires size <= |a|
    requires largest == Largest(a, size, key, i) && largest != i
    requires HeapFrom(a, size, key, largest)
    ensures key(Heapify(Swap(a, i, largest), size, key, largest)[largest]) <= key(a[largest])
  {
    var c := Swap(a, i, largest);
    var b := Heapify(c, size, key, largest);
    if Left(largest) < size {
      assert InSubtree(largest, Left(largest));
    }
    if Right(largest) < size {
      assert InSubtree(largest, Right(largest));
    }
  }

  // ---------------------------------------------------------------------------
  // increase_key: replace and sift up

  /** The `while` loop of `increase_key`: swap with the parent while the parent ranks
      strictly lower. */
  function SiftUp<T>(a: seq<T>, key: T -> int, i: nat): (b: seq<T>)
    requires i < |a|
    ensures |b| == |a|
    ensures multiset(b) == multiset(a)
    decreases i
  {
    if i > 0 && key(a[Parent(i)]) < key(a[i]) then
      SiftUp(Swap(a, Parent(i), i), key, Parent(i))
    else
      a
  }

  /** `increase_key(i, x)`: refuse an element that ranks below the current occupant of
      `i`; otherwise store it and sift it up. */
  function IncreaseKey<T>(a: seq<T>, key: T -> int, i: nat, x: T): (r: Result<seq<T>, HeapError>)
    requires i < |a|
    ensures r.Failure? <==> key(x) < key(a[i])
    ensures r.Failure? ==> r.error == PriorityDecrease
    ensures r.Success? ==> |r.value| == |a| && multiset(r.value) == multiset(a[i := x])
  {
    if key(x) < key(a[i]) then Failure(PriorityDecrease) else Success(SiftUp(a[i := x], key, i))
  }

  /** One swap of the sift-up keeps the loop invariant, one level higher. */
  lemma SiftUpStep<T>(a: seq<T>, size: nat, key: T -> int, k: nat)
    requires 0 < k < size <= |a|
    requires AlmostHeap(a, size, key, k)
    requires key(a[Parent(k)]) < key(a[k])
    ensures AlmostHeap(Swap(a, Parent(k), k), size, key, Parent(k))
  {
    var p := Parent(k);
    var c := Swap(a, p, k);
    forall j | 0 < j < size && j != p
      ensures key(c[Parent(j)]) >= key(c[j])
    {
      if j != k && Parent(j) == p {
        assert key(a[p]) >= key(a[j]);
      }
    }
    if 0 < p {
      forall j | 0 < j < size && Parent(j) == p
        ensures key(c[Parent(p)]) >= key(c[j])
      {
        assert key(a[Parent(p)]) >= key(a[p]);
        if j != k {
          assert key(a[p]) >= key(a[j]);
        }
      }
    }
  }

  /** The sift-up turns an almost-heap into a heap. */
  lemma {:induction false} SiftUpOrders<T>(a: seq<T>, size: nat, key: T -> int, i: nat)
    requires i < size <= |a|
    requires AlmostHeap(a, size, key, i)
    ensures IsHeap(SiftUp(a, key, i), size, key)
    decreases i
  {
    if i > 0 && key(a[Parent(i)]) < key(a[i]) {
      SiftUpStep(a, size, key, i);
      SiftUpOrders(Swap(a, Parent(i), i), size, key, Parent(i));
    }
  }

  /** Raising the key at `i` keeps the almost-heap shape around `i`. */
  lemma RaiseKeepsAlmostHeap<T>(a: seq<T>, size: nat, key: T -> int, i: nat, x: T)
    requires i < size <= |a|
    requires AlmostHeap(a, size, key, i)
    requires key(x) >= key(a[i])
    ensures AlmostHeap(a[i := x], size, key, i)
  {
    var b := a[i := x];
    forall j | 0 < j < size && j != i
      ensures key(b[Parent(j)]) >= key(b[j])
    {
    }
  }

  /** A heap is an almost-heap around any of its slots. */
  lemma HeapIsAlmostHeap<T>(a: seq<T>, size: nat, key: T -> int, i: nat)
    requires i < size <= |a|
    requires IsHeap(a, size, key)
    ensures AlmostHeap(a, size, key, i)
  {
  }

  /** increase_key's contract: on an almost-heap around `i` (every heap is one), a
      successful increase leaves a heap. */
  lemma IncreaseKeyOrders<T>(a: seq<T>, size: nat, key: T -> int, i: nat, x: T)
    requires i < size <= |a|
    requires AlmostHeap(a, size, key, i)
    ensures IncreaseKey(a, key, i, x).Success? ==> IsHeap(IncreaseKey(a, key, i, x).value, size, key)
  {
    if key(x) >= key(a[i]) {
      RaiseKeepsAlmostHeap(a, size, key, i, x);
      SiftUpOrders(a[i := x], size, key, i);
    }
  }

  /** An element that ranks strictly above every other slot is carried to the root. */
  lemma {:induction false} SiftUpReachesRoot<T>(a: seq<T>, key: T -> int, i: nat)
    requires i < |a|
    requires forall j :: 0 <= j < |a| && j != i ==> key(a[j]) < key(a[i])
    ensures SiftUp(a, key, i)[0] == a[i]
    decreases i
  {
    if i > 0 {
      var c := Swap(a, Parent(i), i);
      SiftUpReachesRoot(c, key, Parent(i));
    }
  }

  // ---------------------------------------------------------------------------
  // heappush, heappop, maxkey

  /** `heappush(x)`: append a priority-0 placeholder, raise it to `x` and bump the counter.
      A task ranking below the placeholder is refused. */
  function Push<T>(h: MaxHeap<T>, key: T -> int, placeholder: T, x: T): (r: Result<MaxHeap<T>, HeapError>)
    requires h.heapSize <= |h.heap|
    requires key(placeholder) == PlaceholderPriority
    ensures h.heapSize == |h.heap| ==> (r.Failure? <==> key(x) < PlaceholderPriority)
    ensures r.Failure? ==> r.error == PriorityDecrease
    ensures r.Success? ==> r.value.heapSize == h.heapSize + 1 && |r.value.heap| == |h.heap| + 1
    ensures r.Success? && h.heapSize == |h.heap| ==> multiset(r.value.heap) == multiset(h.heap) + multiset{x}
    ensures r.Success? && Valid(h, key) && h.heapSize == |h.heap| ==> Valid(r.value, key)
  {
    var a := h.heap + [placeholder];
    match IncreaseKey(a, key, h.heapSize, x)
    case Failure(e) => Failure(e)
    case Success(b) =>
      if Valid(h, key) && h.heapSize == |h.heap| then
        assert AlmostHeap(a, h.heapSize + 1, key, h.heapSize);
        IncreaseKeyOrders(a, h.heapSize + 1, key, h.heapSize, x);
        assert a[h.heapSize := x] == h.heap + [x];
        Success(MaxHeap(b, h.heapSize + 1))
      else
        Success(MaxHeap(b, h.heapSize + 1))
  }

  /** In a heap the root ranks at least as high as every counted slot. */
  lemma {:induction false} RootIsMax<T>(a: seq<T>, size: nat, key: T -> int, j: nat)
    requires size <= |a| && IsHeap(a, size, key)
    requires j < size
    ensures key(a[j]) <= key(a[0])
    decreases j
  {
    if j > 0 {
      RootIsMax(a, size, key, Parent(j));
    }
  }

  /** `heappop`: fail on an empty counter; otherwise move the last list element to the root,
      drop the last slot, decrement the counter and heapify from the root. */
  function Pop<T>(h: MaxHeap<T>, key: T -> int): (r: Result<(T, MaxHeap<T>), HeapError>)
    requires h.heapSize <= |h.heap|
    ensures r.Failure? <==> h.heapSize < 1
    ensures r.Failure? ==> r.error == Underflow
    ensures r.Success? ==> r.value.0 == h.heap[0]
    ensures r.Success? ==> |r.value.1.heap| == |h.heap| - 1 && r.value.1.heapSize == h.heapSize - 1
    ensures r.Success? ==> multiset(r.value.1.heap) == multiset(h.heap) - multiset{r.value.0}
    ensures r.Success? && Valid(h, key) ==> Valid(r.value.1, key)
    ensures r.Success? && Valid(h, key) ==> forall j :: 0 <= j < h.heapSize ==> key(h.heap[j]) <= key(r.value.0)
  {
    if h.heapSize < 1 then
      Failure(Underflow)
    else
      var shrunk := MoveLastToRoot(h.heap);
      var size := h.heapSize - 1;
      var result := Heapify(shrunk, size, key, 0);
      MoveLastToRootDropsRoot(h.heap);
      HeapifyPermutes(shrunk, size, key, 0);
      if Valid(h, key) then
        PopOrders(h, key);
        Success((h.heap[0], MaxHeap(result, size)))
      else
        Success((h.heap[0], MaxHeap(result, size)))
  }

  /** `heap[0] = heap[-1]` followed by `heap.pop()`: the root is overwritten by the last
      element and the last slot disappears. */
  function MoveLastToRoot<T>(a: seq<T>): (b: seq<T>)
    requires |a| >= 1
    ensures |b| == |a| - 1
    ensures forall j :: 0 < j < |b| ==> b[j] == a[j]
  {
    var n := |a|;
    if n == 1 then [] else [a[n - 1]] + a[1..n - 1]
  }

  /** Moving the last element to the root loses exactly the old root. */
  lemma MoveLastToRootDropsRoot<T>(a: seq<T>)
    requires |a| >= 1
    ensures multiset(MoveLastToRoot(a)) == multiset(a) - multiset{a[0]}
  {
    var n := |a|;
    if n > 1 {
      assert a == [a[0]] + a[1..n - 1] + [a[n - 1]];
    }
  }

  /** MoveLastToRoot is the assignment to the root followed by dropping the last slot. */
  lemma MoveLastToRootIsAssignThenPop<T>(a: seq<T>)
    requires |a| >= 1
    ensures MoveLastToRoot(a) == a[0 := a[|a| - 1]][..|a| - 1]
  {
  }

  /** The ordering half of heappop's contract. */
  lemma {:induction false} PopOrders<T>(h: MaxHeap<T>, key: T -> int)
    requires Valid(h, key) && h.heapSize >= 1
    ensures IsHeap(Heapify(MoveLastToRoot(h.heap), h.heapSize - 1, key, 0), h.heapSize - 1, key)
    ensures forall j :: 0 <= j < h.heapSize ==> key(h.heap[j]) <= key(h.heap[0])
  {
    PopRestIsHeap(h.heap, h.heapSize, key);
    RootIsMaxAll(h.heap, h.heapSize, key);
  }

  /** Moving the last element to the root and heapifying from there leaves a heap. */
  lemma {:induction false} PopRestIsHeap<T>(a: seq<T>, n: nat, key: T -> int)
    requires 1 <= n <= |a| && IsHeap(a, n, key)
    ensures IsHeap(Heapify(MoveLastToRoot(a), n - 1, key, 0), n - 1, key)
  {
    ShrunkChildrenOrdered(a, n, key);
    HeapifyRootOrders(MoveLastToRoot(a), n - 1, key);
  }

  /** Heap order on every edge that does not leave the root. */
  predicate BelowRootOrdered<T>(a: seq<T>, size: nat, key: T -> int)
    requires size <= |a|
  {
    forall j :: 2 < j < size ==> key(a[Parent(j)]) >= key(a[j])
  }

  /** After the last element moves to the root, every edge below the root is still
      ordered. */
  lemma {:induction false} ShrunkChildrenOrdered<T>(a: seq<T>, n: nat, key: T -> int)
    requires 1 <= n <= |a| && IsHeap(a, n, key)
    ensures BelowRootOrdered(MoveLastToRoot(a), n - 1, key)
  {
  }

  /** Heapifying the root of a list ordered below the root yields a heap. */
  lemma {:induction false} HeapifyRootOrders<T>(a: seq<T>, size: nat, key: T -> int)
    requires size <= |a| && BelowRootOrdered(a, size, key)
    ensures IsHeap(Heapify(a, size, key, 0), size, key)
  {
    RightRootOutsideLeft();
    HeapifyOrders(a, size, key, 0);
    RootSubtreeIsHeap(Heapify(a, size, key, 0), size, key);
  }

  /** Slot 2 is not in the subtree of slot 1. */
  lemma RightRootOutsideLeft()
    ensures !InSubtree(Left(0), Right(0))
  {
    assert Parent(2) == 0;
  }

  /** Heap order in the subtree of the root is heap order. */
  lemma RootSubtreeIsHeap<T>(a: seq<T>, size: nat, key: T -> int)
    requires size <= |a| && HeapFrom(a, size, key, 0)
    ensures IsHeap(a, size, key)
  {
    forall j | 0 < j < size
      ensures key(a[Parent(j)]) >= key(a[j])
    {
      AllInRootSubtree(j);
    }
  }

  lemma RootIsMaxAll<T>(a: seq<T>, size: nat, key: T -> int)
    requires size <= |a| && IsHeap(a, size, key)
    ensures forall j :: 0 <= j < size ==> key(a[j]) <= key(a[0])
  {
    forall j | 0 <= j < size
      ensures key(a[j]) <= key(a[0])
    {
      RootIsMax(a, size, key, j);
    }
  }

  /** `maxkey`: the first list element; an empty list raises an index error. */
  function MaxKey<T>(h: MaxHeap<T>): (r: Result<T, HeapError>)
    ensures r.Failure? <==> |h.heap| == 0
    ensures r.Success? ==> r.value == h.heap[0]
  {
    if |h.heap| == 0 then Failure(IndexOutOfRange) else Success(h.heap[0])
  }

  /** On a non-empty heap, maxkey ranks at least as high as every counted element. */
  lemma MaxKeyIsMax<T>(h: MaxHeap<T>, key: T -> int)
    requires Valid(h, key) && h.heapSize >= 1
    ensures MaxKey(h).Success?
    ensures forall j :: 0 <= j < h.heapSize ==> key(h.heap[j]) <= key(MaxKey(h).value)
  {
    RootIsMaxAll(h.heap, h.heapSize, key);
  }

  /** Popping until the heap is empty yields its contents in non-increasing key order. */
  function Drain<T>(h: MaxHeap<T>, key: T -> int): (out: seq<T>)
    requires Valid(h, key) && h.heapSize == |h.heap|
    ensures multiset(out) == multiset(h.heap)
    ensures forall i, j :: 0 <= i < j < |out| ==> key(out[i]) >= key(out[j])
    decreases h.heapSize
  {
    if h.heapSize == 0 then
      []
    else
      var popped := Pop(h, key).value;
      var rest := Drain(popped.1, key);
      DrainCons(h, key, popped.0, popped.1, rest);
      [popped.0] + rest
  }

  /** Prefixing a sorted sequence with an element ranking at least as high keeps it sorted. */
  lemma SortedCons<T>(key: T -> int, top: T, rest: seq<T>)
    requires forall i, j :: 0 <= i < j < |rest| ==> key(rest[i]) >= key(rest[j])
    requires forall j :: 0 <= j < |rest| ==> key(rest[j]) <= key(top)
    ensures forall i, j :: 0 <= i < j < |[top] + rest| ==> key(([top] + rest)[i]) >= key(([top] + rest)[j])
  {
    var out := [top] + rest;
    forall i, j | 0 <= i < j < |out|
      ensures key(out[i]) >= key(out[j])
    {
      if i > 0 {
        assert out[i] == rest[i - 1] && out[j] == rest[j - 1];
      } else {
        assert out[j] == rest[j - 1];
      }
    }
  }

  /** The first popped element followed by the rest of the drain is sorted and holds
      the whole heap. */
  lemma DrainCons<T>(h: MaxHeap<T>, key: T -> int, top: T, after: MaxHeap<T>, rest: seq<T>)
    requires h.heapSize == |h.heap| >= 1 && top == h.heap[0]
    requires forall j :: 0 <= j < h.heapSize ==> key(h.heap[j]) <= key(top)
    requires multiset(after.heap) == multiset(h.heap) - multiset{top}
    requires multiset(rest) == multiset(after.heap)
    requires forall i, j :: 0 <= i < j < |rest| ==> key(rest[i]) >= key(rest[j])
    ensures multiset([top] + rest) == multiset(h.heap)
    ensures forall i, j :: 0 <= i < j < |[top] + rest| ==> key(([top] + rest)[i]) >= key(([top] + rest)[j])
  {
    DrainHeadIsMax(h, key, top, after, rest);
    SortedCons(key, top, rest);
    assert top in multiset(h.heap);
  }

  /** Every element drained after the first one ranks no higher than it. */
  lemma DrainHeadIsMax<T>(h: MaxHeap<T>, key: T -> int, top: T, after: MaxHeap<T>, rest: seq<T>)
    requires h.heapSize == |h.heap|
    requires forall j :: 0 <= j < h.heapSize ==> key(h.heap[j]) <= key(top)
    requires multiset(after.heap) == multiset(h.heap) - multiset{top}
    requires multiset(rest) == multiset(after.heap)
    ensures forall j :: 0 <= j < |rest| ==> key(rest[j]) <= key(top)
  {
    forall j | 0 <= j < |rest|
      ensures key(rest[j]) <= key(top)
    {
      assert rest[j] in multiset(rest);
      assert rest[j] in multiset(h.heap);
      var k :| 0 <= k < |h.heap| && h.heap[k] == rest[j];
    }
  }
}
