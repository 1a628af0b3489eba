/**
 The shape of an array-backed binary tree: child and parent index arithmetic
 and the "lies in the subtree rooted at" relation used to state heap order.
 */
module HeapShape {

  function Left(i: int): (l: int)
    ensures Parent(l) == i
  {
    2 * i + 1
  }

  function Right(i: int): (r: int)
    ensures Parent(r) == i
    ensures r == Left(i) + 1
  {
    2 * i + 2
  }

  /** Floor division, as Python's `//`; Dafny's `/` agrees with it for a positive divisor. */
  function Parent(i: int): (p: int)
    ensures i > 0 ==> 0 <= p < i
  {
    (i - 1) / 2
  }

  /** Every non-root index is the left or the right child of its parent. */
  lemma ChildOfParent(i: int)
    requires i > 0
    ensures i == Left(Parent(i)) || i == Right(Parent(i))
  {
  }

  /** `j` lies in the subtree rooted at `root`. */
  predicate InSubtree(root: nat, j: nat): (b: bool)
    ensures b ==> root <= j
    decreases j
  {
    j == root || (j > root && InSubtree(root, Parent(j)))
  }

  /** Every index lies in the subtree of the root. */
  lemma {:induction false} AllInRootSubtree(j: nat)
    ensures InSubtree(0, j)
    decreases j
  {
    if j > 0 {
      AllInRootSubtree(Parent(j));
    }
  }

  /** The subtree of a child is contained in the subtree of its parent. */
  lemma {:induction false} ChildSubtreeInside(i: nat, c: nat, j: nat)
    requires c == Left(i) || c == Right(i)
    requires InSubtree(c, j)
    ensures InSubtree(i, j)
    decreases j
  {
    if j != c {
      ChildSubtreeInside(i, c, Parent(j));
    }
  }

  /** A node other than the root of a subtree lies below one of the root's two children. */
  lemma {:induction false} BelowAChild(i: nat, j: nat)
    requires InSubtree(i, j) && j != i
    ensures InSubtree(Left(i), j) || InSubtree(Right(i), j)
    decreases j
  {
    var p := Parent(j);
    if p != i {
      BelowAChild(i, p);
      ChildOfParent(j);
    }
  }

  /** The subtrees of the two children of a node are disjoint. */
  lemma {:induction false} SiblingSubtreesDisjoint(i: nat, j: nat)
    ensures !(InSubtree(Left(i), j) && InSubtree(Right(i), j))
    decreases j
  {
    if InSubtree(Left(i), j) && InSubtree(Right(i), j) {
      if j == Left(i) || j == Right(i) {
        assert false;
      }
      SiblingSubtreesDisjoint(i, Parent(j));
    }
  }

  /** The whole subtree of a child lies in the subtree of its parent. */
  lemma ChildSubtreesInside(i: nat, c: nat)
    requires c == Left(i) || c == Right(i)
    ensures forall j: nat :: InSubtree(c, j) ==> InSubtree(i, j)
  {
    forall j: nat | InSubtree(c, j)
      ensures InSubtree(i, j)
    {
      ChildSubtreeInside(i, c, j);
    }
  }
}
