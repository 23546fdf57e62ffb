/**
 * The pointer heap.  Nodes are never relinked: push and pop swap data between nodes, and
 * only the leaf-level node that is added or taken out changes a link.
 */
module LocHeap {
  import opened Optional
  import opened Ranking
  import HT = HeapTree

  /** The links of n lead where they led, except that one to the node that is gone is null. */
  twostate predicate KeepsLinks<T(!new)>(n: LocHeapNode<T>, gone: LocHeapNode<T>)
    reads n
  {
    && n.left == (if old(n.left) == gone then null else old(n.left))
    && n.right == (if old(n.right) == gone then null else old(n.right))
  }

  lemma PopUnfolds<T>(ranks: (T, T) -> int, t: HT.Tree<T>)
    requires t.Node?
    ensures t.left.Leaf? && t.right.Leaf? ==> HT.Pop(ranks, t) == (HT.Leaf, t.data)
    ensures t.left.Node? || t.right.Node? ==>
      if HT.RightMovesUp(ranks, t) then
        t.right.Node? && HT.Pop(ranks, t).1 == HT.Pop(ranks, t.right.(data := t.data)).1
        && HT.Pop(ranks, t).0 == HT.Node(t.size - 1, t.left, t.right.data, HT.Pop(ranks, t.right.(data := t.data)).0)
      else
        t.left.Node? && HT.Pop(ranks, t).1 == HT.Pop(ranks, t.left.(data := t.data)).1
        && HT.Pop(ranks, t).0 == HT.Node(t.size - 1, HT.Pop(ranks, t.left.(data := t.data)).0, t.left.data, t.right)
  {
  }

  class LocHeapNode<T(==, !new)> {
    var size: int
    var left: LocHeapNode?<T>
    var right: LocHeapNode?<T>
    var data: T

    ghost var repr: set<LocHeapNode<T>>
    ghost var shape: HT.Tree<T>

    /** The links form a tree within repr, and shape is its value: nothing is said about order or sizes. */
    ghost predicate Valid()
      reads this, repr
      decreases repr
    {
      && this in repr
      && (left != null ==> left in repr && left.repr <= repr && this !in left.repr && left.Valid())
      && (right != null ==> right in repr && right.repr <= repr && this !in right.repr && right.Valid())
      && (left != null && right != null ==> left.repr !! right.repr)
      && Covers(repr)
      && shape == HT.Node(size, if left == null then HT.Leaf else left.shape, data,
                          if right == null then HT.Leaf else right.shape)
    }

    /** The nodes are those of the tree. */
    ghost predicate Covers(nodes: set<LocHeapNode<T>>)
      reads this, left, right
    {
      forall n | n in nodes && n != this :: (left != null && n in left.repr) || (right != null && n in right.repr)
    }

    ghost predicate LinksInto(nodes: set<LocHeapNode<T>>)
      reads this
    {
      (left != null ==> left in nodes) && (right != null ==> right in nodes)
    }

    lemma {:induction false} LinksInside()
      requires Valid()
      ensures forall n | n in repr :: n.LinksInto(repr)
      decreases repr
    {
      if left != null { left.LinksInside(); }
      if right != null { right.LinksInside(); }
    }

    constructor (data: T)
      ensures Valid() && IsSingle() && repr == {this} && this.data == data
    {
      size, left, right, this.data := 1, null, null, data;
      repr, shape := {this}, HT.Node(1, HT.Leaf, data, HT.Leaf);
    }

    ghost predicate IsSingle()
      reads this
    {
      left == null && right == null && size == 1
    }

    /** Sets the ghost fields after a change to this node or to one of its links. */
    ghost method Refresh(newRepr: set<LocHeapNode<T>>)
      requires this in newRepr
      requires left != null ==> left.Valid() && left.repr <= newRepr && this !in left.repr
      requires right != null ==> right.Valid() && right.repr <= newRepr && this !in right.repr
      requires left != null && right != null ==> left.repr !! right.repr
      requires Covers(newRepr)
      modifies this`repr, this`shape
      ensures Valid() && repr == newRepr
      ensures shape == HT.Node(size, if left == null then HT.Leaf else left.shape, data,
                               if right == null then HT.Leaf else right.shape)
    {
      repr := newRepr;
      shape := HT.Node(size, if left == null then HT.Leaf else left.shape, data,
                       if right == null then HT.Leaf else right.shape);
    }

    method Swap(node: LocHeapNode<T>)
      requires this != node
      modifies this`data, node`data
      ensures data == old(node.data) && node.data == old(data)
    {
      var tmp := node.data;
      node.data := data;
      data := tmp;
    }

    /** Ensures that this node ranks no lower than the incoming one. */
    method Settle(ranks: (T, T) -> int, node: LocHeapNode<T>)
      requires Valid() && node.Valid() && node.IsSingle() && node !in repr
      modifies this`data, node`data, this`shape, node`shape
      ensures Valid() && node.Valid()
      ensures shape == old(shape).(data :=
        if OutRanks(ranks, old(node.data), old(data)) then old(node.data) else old(data))
      ensures node.data == if OutRanks(ranks, old(node.data), old(data)) then old(data) else old(node.data)
    {
      if OutRanks(ranks, node.data, data) {
        Swap(node);
        node.shape := node.shape.(data := node.data);
        shape := shape.(data := data);
      }
    }

    /** Drops a node into the smaller of the subtrees. */
    method Drop(ranks: (T, T) -> int, node: LocHeapNode<T>)
      requires Valid() && node.Valid() && node.IsSingle() && node !in repr && node.repr == {node}
      modifies repr, node
      ensures Valid() && repr == old(repr) + {node}
      ensures var t, low := old(shape), old(node.data);
        shape == if t.left.Leaf? || (t.right.Node? && t.left.size <= t.right.size)
                 then HT.Node(t.size + 1, HT.Push(ranks, t.left, low), t.data, t.right)
                 else HT.Node(t.size + 1, t.left, t.data, HT.Push(ranks, t.right, low))
      decreases repr, 0
    {
      if left == null {
        left := node;
      } else if right == null {
        right := node;
      } else if left.size <= right.size {
        left.Push(ranks, node);
      } else {
        right.Push(ranks, node);
      }
      size := size + 1;
      Refresh(repr + {node});
    }

    method Push(ranks: (T, T) -> int, node: LocHeapNode<T>)
      requires Valid() && node.Valid() && node.IsSingle() && node !in repr && node.repr == {node}
      modifies repr, node
      ensures Valid() && repr == old(repr) + {node}
      ensures shape == HT.Push(ranks, old(shape), old(node.data))
      decreases repr, 1
    {
      Settle(ranks, node);
      Drop(ranks, node);
    }

    /** Swaps data with the child that ranks higher; this node's own shape is left to Refresh. */
    method RaiseChild(ranks: (T, T) -> int) returns (fromRight: bool)
      requires Valid() && (left != null || right != null)
      requires (left != null ==> left.shape.Node?) && (right != null ==> right.shape.Node?)
      modifies this`data, left, right
      ensures left != null ==>
        left.repr == old(left.repr) && left.left == old(left.left) && left.right == old(left.right)
      ensures right != null ==>
        right.repr == old(right.repr) && right.left == old(right.left) && right.right == old(right.right)
      ensures fromRight == HT.RightMovesUp(ranks, old(shape))
      ensures left != null ==>
        left.Valid() && left.shape == if fromRight then old(left.shape) else old(left.shape).(data := old(data))
      ensures right != null ==>
        right.Valid() && right.shape == if fromRight then old(right.shape).(data := old(data)) else old(right.shape)
      ensures data == if fromRight then old(right.data) else old(left.data)
    {
      fromRight := left == null || (right != null && !OutRanks(ranks, left.data, right.data));
      var sub := if fromRight then right else left;
      Swap(sub);
      sub.shape := sub.shape.(data := sub.data);
    }

    /** Takes a node out of the right subtree. */
    method PopRight(ranks: (T, T) -> int) returns (popped: LocHeapNode<T>)
      requires right != null && right.Valid() && right.repr <= repr && this !in right.repr && this in repr
      requires left != null ==> left.Valid() && left.repr <= repr && this !in left.repr && left.repr !! right.repr
      requires Covers(repr)
      modifies this`right, this`repr, this`shape, right.repr
      ensures Valid() && repr == old(repr) - {popped}
      ensures popped in old(right.repr) && popped.left == null && popped.right == null
      ensures shape ==
        HT.Node(size, if left == null then HT.Leaf else old(left.shape), data, HT.Pop(ranks, old(right.shape)).0)
      ensures popped.data == HT.Pop(ranks, old(right.shape)).1
      ensures forall n | n in old(repr) && n != popped :: KeepsLinks(n, popped)
      decreases repr, 0
    {
      hide HT.Pop;
      if left != null { left.LinksInside(); }
      right, popped := Pop(ranks, right);
      Refresh(repr - {popped});
    }

    /** Takes a node out of the left subtree. */
    method PopLeft(ranks: (T, T) -> int) returns (popped: LocHeapNode<T>)
      requires left != null && left.Valid() && left.repr <= repr && this !in left.repr && this in repr
      requires right != null ==> right.Valid() && right.repr <= repr && this !in right.repr && right.repr !! left.repr
      requires Covers(repr)
      modifies this`left, this`repr, this`shape, left.repr
      ensures Valid() && repr == old(repr) - {popped}
      ensures popped in old(left.repr) && popped.left == null && popped.right == null
      ensures shape ==
        HT.Node(size, HT.Pop(ranks, old(left.shape)).0, data, if right == null then HT.Leaf else old(right.shape))
      ensures popped.data == HT.Pop(ranks, old(left.shape)).1
      ensures forall n | n in old(repr) && n != popped :: KeepsLinks(n, popped)
      decreases repr, 0
    {
      hide HT.Pop;
      if right != null { right.LinksInside(); }
      left, popped := Pop(ranks, left);
      Refresh(repr - {popped});
    }

    /** Swaps this node's data with the higher ranking child's and takes a node out of that child's subtree. */
    method PopBelow(ranks: (T, T) -> int) returns (popped: LocHeapNode<T>)
      requires Valid() && (left != null || right != null)
      modifies repr
      ensures Valid() && repr == old(repr) - {popped} && size == old(size)
      ensures popped in old(repr) && popped.left == null && popped.right == null
      ensures var t := old(shape);
        if HT.RightMovesUp(ranks, t) then
          t.right.Node? && popped.data == HT.Pop(ranks, t.right.(data := t.data)).1
          && shape == HT.Node(t.size, t.left, t.right.data, HT.Pop(ranks, t.right.(data := t.data)).0)
        else
          t.left.Node? && popped.data == HT.Pop(ranks, t.left.(data := t.data)).1
          && shape == HT.Node(t.size, HT.Pop(ranks, t.left.(data := t.data)).0, t.left.data, t.right)
      ensures forall n | n in old(repr) && n != popped :: KeepsLinks(n, popped)
      decreases repr, 1
    {
      hide HT.Pop;
      var fromRight := RaiseChild(ranks);
      if fromRight {
        popped := PopRight(ranks);
      } else {
        popped := PopLeft(ranks);
      }
    }

    /** Takes a leaf-level node out of the tree at top; newTop is what the link to top becomes. */
    static method Pop(ranks: (T, T) -> int, top: LocHeapNode<T>)
        returns (newTop: LocHeapNode?<T>, popped: LocHeapNode<T>)
      requires top.Valid()
      modifies top.repr
      ensures newTop == (if old(top.left == null && top.right == null) then null else top)
      ensures newTop == null <==> popped == top
      ensures newTop != null ==> newTop.Valid() && newTop.repr == old(top.repr) - {popped}
      ensures popped in old(top.repr) && popped.left == null && popped.right == null
      ensures (if newTop == null then HT.Leaf else newTop.shape) == HT.Pop(ranks, old(top.shape)).0
      ensures popped.data == HT.Pop(ranks, old(top.shape)).1
      ensures forall n | n in old(top.repr) && n != popped :: KeepsLinks(n, popped)
      decreases top.repr, 2
    {
      PopUnfolds(ranks, top.shape);
      hide HT.Pop;
      popped := top;
      newTop := null;
      top.size := top.size - 1;
      if top.left != null || top.right != null {
        top.shape := top.shape.(size := top.size);
        popped := top.PopBelow(ranks);
        newTop := top;
      }
    }

    /** Searches the left subtree. */
    method RemoveLeft(ranks: (T, T) -> int, x: T) returns (removed: LocHeapNode?<T>)
      requires Valid() && left != null
      modifies repr
      ensures (removed != null) == HT.Remove(ranks, old(left.shape), x).0
      ensures removed == null ==> unchanged(old(repr))
      ensures removed != null ==>
        && Valid() && repr == old(repr) - {removed} && removed in old(left.repr)
        && removed.data == x && removed.left == null && removed.right == null
        && shape == old(shape).(left := HT.Remove(ranks, old(left.shape), x).1)
        && forall n | n in old(repr) && n != removed :: KeepsLinks(n, removed)
      decreases repr, 0
    {
      hide HT.Remove;
      if right != null { right.LinksInside(); }
      var sub;
      sub, removed := Remove(ranks, left, x);
      if removed != null {
        left := sub;
        Refresh(repr - {removed});
      }
    }

    /** Searches the right subtree. */
    method RemoveRight(ranks: (T, T) -> int, x: T) returns (removed: LocHeapNode?<T>)
      requires Valid() && right != null
      modifies repr
      ensures (removed != null) == HT.Remove(ranks, old(right.shape), x).0
      ensures removed == null ==> unchanged(old(repr))
      ensures removed != null ==>
        && Valid() && repr == old(repr) - {removed} && removed in old(right.repr)
        && removed.data == x && removed.left == null && removed.right == null
        && shape == old(shape).(right := HT.Remove(ranks, old(right.shape), x).1)
        && forall n | n in old(repr) && n != removed :: KeepsLinks(n, removed)
      decreases repr, 0
    {
      hide HT.Remove;
      if left != null { left.LinksInside(); }
      var sub;
      sub, removed := Remove(ranks, right, x);
      if removed != null {
        right := sub;
        Refresh(repr - {removed});
      }
    }

    /** Searches the left subtree, then the right one. */
    method RemoveBelow(ranks: (T, T) -> int, x: T) returns (removed: LocHeapNode?<T>)
      requires Valid()
      modifies repr
      ensures removed == null ==> unchanged(old(repr))
      ensures var t := old(shape);
        var l, r := HT.Remove(ranks, t.left, x), HT.Remove(ranks, t.right, x);
        && (removed != null <==> l.0 || r.0)
        && (removed != null ==> shape == if l.0 then t.(left := l.1) else t.(right := r.1))
      ensures removed != null ==>
        && Valid() && repr == old(repr) - {removed} && removed in old(repr) && removed != this
        && removed.data == x && removed.left == null && removed.right == null
        && forall n | n in old(repr) && n != removed :: KeepsLinks(n, removed)
      decreases repr, 1
    {
      removed := null;
      if left != null {
        removed := RemoveLeft(ranks, x);
      }
      if removed == null && right != null {
        removed := RemoveRight(ranks, x);
      }
    }

    /** Searches the tree at top for x by address, skipping subtrees that x would outrank. */
    static method Remove(ranks: (T, T) -> int, top: LocHeapNode<T>, x: T)
        returns (newTop: LocHeapNode?<T>, removed: LocHeapNode?<T>)
      requires top.Valid()
      modifies top.repr
      ensures (removed != null) == HT.Remove(ranks, old(top.shape), x).0
      ensures removed == null ==> newTop == top && unchanged(old(top.repr))
      ensures removed != null ==>
        && removed in old(top.repr) && removed.data == x && removed.left == null && removed.right == null
        && (if newTop == null then HT.Leaf else newTop.shape) == HT.Remove(ranks, old(top.shape), x).1
        && (newTop != null ==> newTop == top && top.Valid() && top.repr == old(top.repr) - {removed})
        && (newTop == null ==> removed == top && old(top.repr) <= {top})
        && forall n | n in old(top.repr) && n != removed :: KeepsLinks(n, removed)
      decreases top.repr, 2
    {
      newTop, removed := top, null;
      if x == top.data {
        newTop, removed := Pop(ranks, top);
      } else if !OutRanks(ranks, x, top.data) {
        removed := top.RemoveBelow(ranks, x);
        if removed != null {
          top.size := top.size - 1;
          top.Refresh(top.repr);
        }
      }
    }

    /** Whether the cached sizes are right and no child outranks its parent. */
    method CheckNodes(ranks: (T, T) -> int) returns (ok: bool)
      requires Valid()
      ensures ok == HT.CheckNodes(ranks, shape)
      decreases repr
    {
      var totalSize := size;
      if left != null {
        if OutRanks(ranks, left.data, data) { return false; }
        var leftOk := left.CheckNodes(ranks);
        if !leftOk { return false; }
        totalSize := totalSize - left.size;
      }
      if right != null {
        if OutRanks(ranks, right.data, data) { return false; }
        var rightOk := right.CheckNodes(ranks);
        if !rightOk { return false; }
        totalSize := totalSize - right.size;
      }
      ok := totalSize == 1;
    }
  }

  class LocHeap<T(==, !new)> {
    const ranks: (T, T) -> int
    var tree: LocHeapNode?<T>

    ghost function Nodes(): set<LocHeapNode<T>>
      reads this, tree
    {
      if tree == null then {} else tree.repr
    }

    ghost predicate Valid()
      reads this, tree, Nodes()
    {
      tree != null ==> tree.Valid()
    }

    /** The value of the heap. */
    ghost function Shape(): HT.Tree<T>
      reads this, tree
    {
      if tree == null then HT.Leaf else tree.shape
    }

    constructor (ranks: (T, T) -> int)
      ensures Valid() && Shape() == HT.Leaf && Nodes() == {} && this.ranks == ranks
    {
      this.ranks := ranks;
      tree := null;
    }

    method Push(x: T)
      requires Valid()
      modifies this, Nodes()
      ensures Valid() && fresh(Nodes() - old(Nodes()))
      ensures Shape() == HT.Push(ranks, old(Shape()), x)
    {
      var node := new LocHeapNode(x);
      if tree == null {
        tree := node;
      } else {
        tree.Push(ranks, node);
      }
    }

    method Peek() returns (top: Option<T>)
      requires Valid()
      ensures top == PeekOf(Shape())
    {
      top := if tree == null then None else Some(tree.data);
    }

    method Pop() returns (item: Option<T>)
      requires Valid()
      modifies this, Nodes()
      ensures Valid() && Nodes() <= old(Nodes())
      ensures item == PeekOf(old(Shape()))
      ensures Shape() == if old(Shape()).Leaf? then HT.Leaf else HT.Pop(ranks, old(Shape())).0
    {
      item := None;
      if tree != null {
        var node;
        tree, node := LocHeapNode.Pop(ranks, tree);
        item := Some(node.data);
      }
    }

    method Remove(x: T) returns (item: Option<T>)
      requires Valid()
      modifies this, Nodes()
      ensures Valid() && Nodes() <= old(Nodes())
      ensures item == if HT.Remove(ranks, old(Shape()), x).0 then Some(x) else None
      ensures Shape() == HT.Remove(ranks, old(Shape()), x).1
    {
      item := None;
      if tree != null {
        var node;
        tree, node := LocHeapNode.Remove(ranks, tree, x);
        if node != null {
          item := Some(node.data);
        }
      }
    }

    /** Accepts exactly the heaps that are ordered throughout and cache their true sizes. */
    method CheckTree() returns (ok: bool)
      requires TotalPreorder(ranks) && Valid()
      ensures ok <==> HT.Valid(ranks, Shape())
    {
      HT.CheckNodesExact(ranks, Shape());
      ok := true;
      if tree != null {
        ok := tree.CheckNodes(ranks);
      }
    }
  }

  function PeekOf<T>(t: HT.Tree<T>): Option<T> {
    if t.Leaf? then None else Some(t.data)
  }
}
