/** LocRankable::ranks as a comparator: a positive value says that the first argument outranks the second. */
module Ranking {
  predicate OutRanks<T>(ranks: (T, T) -> int, a: T, b: T) {
    ranks(a, b) > 0
  }

  /** Nothing on the way from a to c by way of b steps up in rank. */
  predicate Chain<T>(ranks: (T, T) -> int, a: T, b: T, c: T) {
    !OutRanks(ranks, a, b) && !OutRanks(ranks, b, c)
  }

  /** "Does not outrank" is a total preorder: the order the heap needs from its clients. */
  ghost predicate TotalPreorder<T(!new)>(ranks: (T, T) -> int) {
    && (forall a, b :: OutRanks(ranks, a, b) ==> !OutRanks(ranks, b, a))
    && (forall a, b, c {:trigger Chain(ranks, a, b, c)} :: Chain(ranks, a, b, c) ==> !OutRanks(ranks, a, c))
  }
}

/**
 * The value a LocHeap represents: the shape of its nodes with the cached sizes, and what
 * push, pop and remove do to that shape.  Module LocHeap proves the pointer code against
 * these functions; the lemmas here say what the functions promise.
 */
module HeapTree {
  import opened Powers
  import opened Ranking

  datatype Tree<T> = Leaf | Node(size: int, left: Tree<T>, data: T, right: Tree<T>)

  /** The true number of nodes, whatever the cached sizes say. */
  function Count<T>(t: Tree<T>): nat {
    if t.Leaf? then 0 else Count(t.left) + 1 + Count(t.right)
  }

  function Elements<T>(t: Tree<T>): multiset<T> {
    if t.Leaf? then multiset{} else Elements(t.left) + multiset{t.data} + Elements(t.right)
  }

  ghost predicate SizesTrue<T>(t: Tree<T>) {
    t.Node? ==> t.size == Count(t) && SizesTrue(t.left) && SizesTrue(t.right)
  }

  /** Nothing in t outranks top. */
  ghost predicate Below<T>(ranks: (T, T) -> int, t: Tree<T>, top: T) {
    t.Node? ==> !OutRanks(ranks, t.data, top) && Below(ranks, t.left, top) && Below(ranks, t.right, top)
  }

  /** At every node, nothing in the whole subtree outranks the node's data. */
  ghost predicate HeapOrdered<T>(ranks: (T, T) -> int, t: Tree<T>) {
    t.Node? ==>
      && Below(ranks, t.left, t.data) && Below(ranks, t.right, t.data)
      && HeapOrdered(ranks, t.left) && HeapOrdered(ranks, t.right)
  }

  ghost predicate Valid<T>(ranks: (T, T) -> int, t: Tree<T>) {
    HeapOrdered(ranks, t) && SizesTrue(t)
  }

  // ---------- the operations ----------

  function Push<T>(ranks: (T, T) -> int, t: Tree<T>, x: T): Tree<T> {
    if t.Leaf? then Node(1, Leaf, x, Leaf)
    else
      var swap := OutRanks(ranks, x, t.data);
      var top := if swap then x else t.data;
      var low := if swap then t.data else x;
      if t.left.Leaf? || (t.right.Node? && t.left.size <= t.right.size)
      then Node(t.size + 1, Push(ranks, t.left, low), top, t.right)
      else Node(t.size + 1, t.left, top, Push(ranks, t.right, low))
  }

  /** True if the data of the right child moves up when the top is popped. */
  predicate RightMovesUp<T>(ranks: (T, T) -> int, t: Tree<T>)
    requires t.Node?
  {
    t.left.Leaf? || (t.right.Node? && !OutRanks(ranks, t.left.data, t.right.data))
  }

  /** The tree that is left, and the data in the leaf-level node that came out. */
  function Pop<T>(ranks: (T, T) -> int, t: Tree<T>): (r: (Tree<T>, T))
    requires t.Node?
    ensures r.1 == t.data && Count(r.0) == Count(t) - 1
    decreases Count(t)
  {
    if t.left.Leaf? && t.right.Leaf? then (Leaf, t.data)
    else if RightMovesUp(ranks, t) then
      assert Count(t.right.(data := t.data)) == Count(t.right);
      var (sub, item) := Pop(ranks, t.right.(data := t.data));
      (Node(t.size - 1, t.left, t.right.data, sub), item)
    else
      assert Count(t.left.(data := t.data)) == Count(t.left);
      var (sub, item) := Pop(ranks, t.left.(data := t.data));
      (Node(t.size - 1, sub, t.left.data, t.right), item)
  }

  /** Whether the search reached x, and the tree afterwards. */
  function Remove<T(==)>(ranks: (T, T) -> int, t: Tree<T>, x: T): (bool, Tree<T>) {
    if t.Leaf? then (false, t)
    else if x == t.data then (true, Pop(ranks, t).0)
    else if OutRanks(ranks, x, t.data) then (false, t)
    else
      var (inLeft, left) := Remove(ranks, t.left, x);
      if inLeft then (true, Node(t.size - 1, left, t.data, t.right))
      else
        var (inRight, right) := Remove(ranks, t.right, x);
        if inRight then (true, Node(t.size - 1, t.left, t.data, right)) else (false, t)
  }

  /** LocHeapNode::checkNodes: compares each node with its children only. */
  predicate CheckNodes<T>(ranks: (T, T) -> int, t: Tree<T>) {
    t.Node? ==>
      && (t.left.Node? ==> !OutRanks(ranks, t.left.data, t.data) && CheckNodes(ranks, t.left))
      && (t.right.Node? ==> !OutRanks(ranks, t.right.data, t.data) && CheckNodes(ranks, t.right))
      && t.size - SizeOf(t.left) - SizeOf(t.right) == 1
  }

  function SizeOf<T>(t: Tree<T>): int {
    if t.Leaf? then 0 else t.size
  }

  // ---------- what they promise ----------

  lemma {:induction false} BelowExact<T>(ranks: (T, T) -> int, t: Tree<T>, top: T)
    ensures Below(ranks, t, top) <==> forall y | y in Elements(t) :: !OutRanks(ranks, y, top)
  {
    if t.Node? {
      BelowExact(ranks, t.left, top);
      BelowExact(ranks, t.right, top);
      assert t.data in Elements(t);
      assert forall y :: y in Elements(t) <==> y == t.data || y in Elements(t.left) || y in Elements(t.right);
    }
  }

  lemma {:induction false} BelowHigher<T(!new)>(ranks: (T, T) -> int, t: Tree<T>, low: T, top: T)
    requires TotalPreorder(ranks) && Below(ranks, t, low) && !OutRanks(ranks, low, top)
    ensures Below(ranks, t, top)
  {
    if t.Node? {
      assert Chain(ranks, t.data, low, top);
      BelowHigher(ranks, t.left, low, top);
      BelowHigher(ranks, t.right, low, top);
    }
  }

  /** Nothing in the heap outranks its top. */
  lemma TopRanksHighest<T(!new)>(ranks: (T, T) -> int, t: Tree<T>, y: T)
    requires TotalPreorder(ranks) && HeapOrdered(ranks, t) && y in Elements(t)
    ensures !OutRanks(ranks, y, t.data)
  {
    BelowExact(ranks, t.left, t.data);
    BelowExact(ranks, t.right, t.data);
  }

  // push

  lemma {:induction false} PushSizes<T>(ranks: (T, T) -> int, t: Tree<T>, x: T)
    requires SizesTrue(t)
    ensures SizesTrue(Push(ranks, t, x)) && Count(Push(ranks, t, x)) == Count(t) + 1
  {
    if t.Node? {
      var low := if OutRanks(ranks, x, t.data) then t.data else x;
      PushSizes(ranks, t.left, low);
      PushSizes(ranks, t.right, low);
    }
  }

  lemma {:induction false} PushElements<T>(ranks: (T, T) -> int, t: Tree<T>, x: T)
    ensures Elements(Push(ranks, t, x)) == Elements(t) + multiset{x}
  {
    if t.Node? {
      var low := if OutRanks(ranks, x, t.data) then t.data else x;
      if t.left.Leaf? || (t.right.Node? && t.left.size <= t.right.size) {
        PushElements(ranks, t.left, low);
      } else {
        PushElements(ranks, t.right, low);
      }
    }
  }

  lemma {:induction false} PushBelow<T>(ranks: (T, T) -> int, t: Tree<T>, x: T, top: T)
    requires Below(ranks, t, top) && !OutRanks(ranks, x, top)
    ensures Below(ranks, Push(ranks, t, x), top)
  {
    if t.Node? {
      var low := if OutRanks(ranks, x, t.data) then t.data else x;
      PushBelow(ranks, t.left, low, top);
      PushBelow(ranks, t.right, low, top);
    }
  }

  lemma {:induction false} PushOrdered<T(!new)>(ranks: (T, T) -> int, t: Tree<T>, x: T)
    requires TotalPreorder(ranks) && HeapOrdered(ranks, t)
    ensures HeapOrdered(ranks, Push(ranks, t, x))
  {
    if t.Node? {
      var swap := OutRanks(ranks, x, t.data);
      var top, low := if swap then x else t.data, if swap then t.data else x;
      PushOrdered(ranks, t.left, low);
      PushOrdered(ranks, t.right, low);
      BelowHigher(ranks, t.left, t.data, top);
      BelowHigher(ranks, t.right, t.data, top);
      PushBelow(ranks, t.left, low, top);
      PushBelow(ranks, t.right, low, top);
    }
  }

  lemma PushKeeps<T(!new)>(ranks: (T, T) -> int, t: Tree<T>, x: T)
    requires TotalPreorder(ranks) && Valid(ranks, t)
    ensures Valid(ranks, Push(ranks, t, x))
    ensures Elements(Push(ranks, t, x)) == Elements(t) + multiset{x}
  {
    PushSizes(ranks, t, x);
    PushElements(ranks, t, x);
    PushOrdered(ranks, t, x);
  }

  // pop: the top's data is swapped down a path, so what holds of the top holds of the subtrees only

  lemma {:induction false} PopSizes<T>(ranks: (T, T) -> int, t: Tree<T>)
    requires t.Node? && SizesTrue(t)
    ensures SizesTrue(Pop(ranks, t).0)
    decreases Count(t)
  {
    if t.left.Node? || t.right.Node? {
      var sub := if RightMovesUp(ranks, t) then t.right else t.left;
      assert Count(sub.(data := t.data)) == Count(sub);
      PopSizes(ranks, sub.(data := t.data));
    }
  }

  lemma {:induction false} PopElements<T>(ranks: (T, T) -> int, t: Tree<T>)
    requires t.Node?
    ensures Elements(Pop(ranks, t).0) == Elements(t.left) + Elements(t.right)
    decreases Count(t)
  {
    if t.left.Node? || t.right.Node? {
      var sub := if RightMovesUp(ranks, t) then t.right else t.left;
      assert Count(sub.(data := t.data)) == Count(sub);
      PopElements(ranks, sub.(data := t.data));
    }
  }

  lemma {:induction false} PopBelow<T>(ranks: (T, T) -> int, t: Tree<T>, top: T)
    requires t.Node? && Below(ranks, t.left, top) && Below(ranks, t.right, top)
    ensures Below(ranks, Pop(ranks, t).0, top)
    decreases Count(t)
  {
    if t.left.Node? || t.right.Node? {
      var sub := if RightMovesUp(ranks, t) then t.right else t.left;
      assert Count(sub.(data := t.data)) == Count(sub);
      PopBelow(ranks, sub.(data := t.data), top);
    }
  }

  lemma {:induction false} PopOrdered<T(!new)>(ranks: (T, T) -> int, t: Tree<T>)
    requires TotalPreorder(ranks) && t.Node?
    requires HeapOrdered(ranks, t.left) && HeapOrdered(ranks, t.right)
    ensures HeapOrdered(ranks, Pop(ranks, t).0)
    decreases Count(t)
  {
    if t.left.Node? || t.right.Node? {
      var right := RightMovesUp(ranks, t);
      var sub, other := if right then t.right else t.left, if right then t.left else t.right;
      assert Count(sub.(data := t.data)) == Count(sub);
      PopOrdered(ranks, sub.(data := t.data));
      PopBelow(ranks, sub.(data := t.data), sub.data);
      if other.Node? { BelowChild(ranks, other, sub.data); }
    }
  }

  lemma PopSplits<T>(ranks: (T, T) -> int, t: Tree<T>)
    requires t.Node?
    ensures Elements(t) == Elements(Pop(ranks, t).0) + multiset{t.data}
  {
    PopElements(ranks, t);
  }

  /** The data taken out is the old top's, and exactly one occurrence of it is gone. */
  lemma PopKeeps<T(!new)>(ranks: (T, T) -> int, t: Tree<T>)
    requires TotalPreorder(ranks) && Valid(ranks, t) && t.Node?
    ensures Valid(ranks, Pop(ranks, t).0)
    ensures Elements(t) == Elements(Pop(ranks, t).0) + multiset{Pop(ranks, t).1}
  {
    PopSizes(ranks, t);
    PopSplits(ranks, t);
    PopOrdered(ranks, t);
  }

  // remove

  lemma {:induction false} RemoveSizes<T>(ranks: (T, T) -> int, t: Tree<T>, x: T)
    requires SizesTrue(t)
    ensures var (found, r) := Remove(ranks, t, x);
      && SizesTrue(r)
      && Count(r) == Count(t) - (if found then 1 else 0)
      && (!found ==> r == t)
      && (t.Node? && x != t.data ==> r.Node? && r.data == t.data)
  {
    if t.Node? {
      if x == t.data {
        PopSizes(ranks, t);
      } else {
        RemoveSizes(ranks, t.left, x);
        RemoveSizes(ranks, t.right, x);
      }
    }
  }

  lemma {:induction false} RemoveElements<T>(ranks: (T, T) -> int, t: Tree<T>, x: T)
    requires Remove(ranks, t, x).0
    ensures Elements(t) == Elements(Remove(ranks, t, x).1) + multiset{x}
  {
    if x == t.data {
      PopElements(ranks, t);
    } else if Remove(ranks, t.left, x).0 {
      RemoveElements(ranks, t.left, x);
    } else {
      RemoveElements(ranks, t.right, x);
    }
  }

  lemma {:induction false} RemoveFinds<T>(ranks: (T, T) -> int, t: Tree<T>, x: T)
    requires HeapOrdered(ranks, t) && x in Elements(t)
    ensures Remove(ranks, t, x).0
  {
    if x != t.data {
      BelowExact(ranks, t.left, t.data);
      BelowExact(ranks, t.right, t.data);
      if x in Elements(t.left) { RemoveFinds(ranks, t.left, x); } else { RemoveFinds(ranks, t.right, x); }
    }
  }

  lemma {:induction false} RemoveBelow<T>(ranks: (T, T) -> int, t: Tree<T>, x: T, top: T)
    requires Below(ranks, t, top)
    ensures Below(ranks, Remove(ranks, t, x).1, top)
  {
    if t.Node? {
      if x == t.data {
        PopBelow(ranks, t, top);
      } else {
        RemoveBelow(ranks, t.left, x, top);
        RemoveBelow(ranks, t.right, x, top);
      }
    }
  }

  lemma {:induction false} RemoveOrdered<T(!new)>(ranks: (T, T) -> int, t: Tree<T>, x: T)
    requires TotalPreorder(ranks) && HeapOrdered(ranks, t)
    ensures HeapOrdered(ranks, Remove(ranks, t, x).1)
  {
    if t.Node? {
      if x == t.data {
        PopOrdered(ranks, t);
      } else {
        RemoveOrdered(ranks, t.left, x);
        RemoveOrdered(ranks, t.right, x);
        RemoveBelow(ranks, t.left, x, t.data);
        RemoveBelow(ranks, t.right, x, t.data);
      }
    }
  }

  /** Rank pruning never hides an item: remove succeeds exactly on the members, and takes only that one. */
  lemma RemoveExact<T(!new)>(ranks: (T, T) -> int, t: Tree<T>, x: T)
    requires TotalPreorder(ranks) && Valid(ranks, t)
    ensures var (found, r) := Remove(ranks, t, x);
      && found == (x in Elements(t))
      && Valid(ranks, r)
      && Elements(t) == Elements(r) + (if found then multiset{x} else multiset{})
      && (!found ==> r == t)
      && (t.Node? && x != t.data ==> r.Node? && r.data == t.data)
  {
    RemoveSizes(ranks, t, x);
    RemoveOrdered(ranks, t, x);
    if Remove(ranks, t, x).0 {
      RemoveElements(ranks, t, x);
    } else if x in Elements(t) {
      RemoveFinds(ranks, t, x);
    }
  }

  // checkNodes

  /** The parent-child check accepts exactly the trees ordered and sized as a whole. */
  lemma {:induction false} CheckNodesExact<T(!new)>(ranks: (T, T) -> int, t: Tree<T>)
    requires TotalPreorder(ranks)
    ensures CheckNodes(ranks, t) <==> Valid(ranks, t)
  {
    if t.Node? {
      CheckNodesExact(ranks, t.left);
      CheckNodesExact(ranks, t.right);
      assert SizesTrue(t.left) ==> SizeOf(t.left) == Count(t.left);
      assert SizesTrue(t.right) ==> SizeOf(t.right) == Count(t.right);
      if CheckNodes(ranks, t) {
        if t.left.Node? { BelowChild(ranks, t.left, t.data); }
        if t.right.Node? { BelowChild(ranks, t.right, t.data); }
      }
    }
  }

  lemma BelowChild<T(!new)>(ranks: (T, T) -> int, child: Tree<T>, top: T)
    requires TotalPreorder(ranks) && child.Node? && HeapOrdered(ranks, child) && !OutRanks(ranks, child.data, top)
    ensures Below(ranks, child, top)
  {
    BelowHigher(ranks, child.left, child.data, top);
    BelowHigher(ranks, child.right, child.data, top);
  }

  // ---------- balance ----------

  function PushAll<T>(ranks: (T, T) -> int, t: Tree<T>, xs: seq<T>): Tree<T>
    decreases |xs|
  {
    if xs == [] then t else PushAll(ranks, Push(ranks, t, xs[0]), xs[1..])
  }

  ghost predicate Balanced<T>(t: Tree<T>) {
    t.Node? ==>
      && 0 <= Count(t.left) - Count(t.right) <= 1
      && Balanced(t.left)
      && Balanced(t.right)
  }

  function Height<T>(t: Tree<T>): nat {
    if t.Leaf? then 0
    else 1 + if Height(t.left) < Height(t.right) then Height(t.right) else Height(t.left)
  }

  lemma {:induction false} PushAllValid<T(!new)>(ranks: (T, T) -> int, t: Tree<T>, xs: seq<T>)
    requires TotalPreorder(ranks) && Valid(ranks, t)
    ensures Valid(ranks, PushAll(ranks, t, xs))
    decreases |xs|
  {
    if xs != [] {
      PushKeeps(ranks, t, xs[0]);
      PushAllValid(ranks, Push(ranks, t, xs[0]), xs[1..]);
    }
  }

  lemma {:induction false} PushAllElements<T>(ranks: (T, T) -> int, t: Tree<T>, xs: seq<T>)
    ensures Elements(PushAll(ranks, t, xs)) == Elements(t) + multiset(xs)
    decreases |xs|
  {
    hide Elements, Push;
    if xs != [] {
      PushElements(ranks, t, xs[0]);
      PushAllElements(ranks, Push(ranks, t, xs[0]), xs[1..]);
      Regroup(Elements(t), multiset{xs[0]}, multiset(xs[1..]));
      assert multiset(xs) == multiset{xs[0]} + multiset(xs[1..]) by { assert xs == [xs[0]] + xs[1..]; }
    }
  }

  lemma Regroup<T>(a: multiset<T>, b: multiset<T>, c: multiset<T>)
    ensures (a + b) + c == a + (b + c)
  {
  }

  lemma {:induction false} PushBalanced<T>(ranks: (T, T) -> int, t: Tree<T>, x: T)
    requires SizesTrue(t) && Balanced(t)
    ensures Balanced(Push(ranks, t, x))
  {
    if t.Node? {
      var low := if OutRanks(ranks, x, t.data) then t.data else x;
      PushBalanced(ranks, t.left, low);
      PushBalanced(ranks, t.right, low);
      PushSizes(ranks, t.left, low);
      PushSizes(ranks, t.right, low);
    }
  }

  /** Pushes alone keep the two subtrees of every node within one item of each other. */
  lemma {:induction false} PushAllBalanced<T>(ranks: (T, T) -> int, t: Tree<T>, xs: seq<T>)
    requires SizesTrue(t) && Balanced(t)
    ensures Balanced(PushAll(ranks, t, xs))
    decreases |xs|
  {
    if xs != [] {
      PushBalanced(ranks, t, xs[0]);
      PushSizes(ranks, t, xs[0]);
      PushAllBalanced(ranks, Push(ranks, t, xs[0]), xs[1..]);
    }
  }

  /** Of two children the left one moves up only if it outranks the right one; the other subtree stays as it was. */
  lemma PopSide<T>(ranks: (T, T) -> int, t: Tree<T>)
    requires t.Node? && t.left.Node? && t.right.Node?
    ensures var r := Pop(ranks, t).0;
      r.Node? && if OutRanks(ranks, t.left.data, t.right.data) then r.data == t.left.data && r.right == t.right
                 else r.data == t.right.data && r.left == t.left
  {
  }

  /** Whatever pops came before, a push goes to a child that is no larger than its sibling. */
  lemma PushGoesToSmaller<T>(ranks: (T, T) -> int, t: Tree<T>, x: T)
    requires t.Node? && SizesTrue(t)
    ensures var r := Push(ranks, t, x);
      || (r.right == t.right && Count(t.left) <= Count(t.right) && Count(r.left) == Count(t.left) + 1)
      || (r.left == t.left && Count(t.right) <= Count(t.left) && Count(r.right) == Count(t.right) + 1)
  {
    var low := if OutRanks(ranks, x, t.data) then t.data else x;
    PushSizes(ranks, t.left, low);
    PushSizes(ranks, t.right, low);
  }

  /** A balanced tree of height h holds at least 2^(h-1) items and fewer than 2^h. */
  lemma {:induction false} BalancedIsShallow<T>(t: Tree<T>)
    requires Balanced(t)
    ensures t.Node? ==> Pow2(Height(t) - 1) <= Count(t)
    ensures Count(t) < Pow2(Height(t))
  {
    if t.Node? {
      BalancedIsShallow(t.left);
      BalancedIsShallow(t.right);
      if Height(t.left) < Height(t.right) {
        PowersGrow(Height(t.left), Height(t.right) - 1);
      } else {
        PowersGrow(Height(t.right), Height(t.left));
        if Height(t.left) > 0 && Count(t.right) + 1 < Pow2(Height(t.left) - 1) {
          assert false;
        }
      }
    }
  }

  // ---------- sorting by the heap ----------

  /** Pop until the heap is empty. */
  function PopAll<T>(ranks: (T, T) -> int, t: Tree<T>): seq<T>
    decreases Count(t)
  {
    if t.Leaf? then [] else [t.data] + PopAll(ranks, Pop(ranks, t).0)
  }

  ghost predicate NonIncreasing<T>(ranks: (T, T) -> int, s: seq<T>) {
    forall i, j | 0 <= i < j < |s| :: !OutRanks(ranks, s[j], s[i])
  }

  lemma {:induction false} PopAllPermutes<T>(ranks: (T, T) -> int, t: Tree<T>)
    ensures multiset(PopAll(ranks, t)) == Elements(t)
    decreases Count(t)
  {
    if t.Node? {
      PopSplits(ranks, t);
      PopAllPermutes(ranks, Pop(ranks, t).0);
    }
  }

  lemma {:induction false} PopAllDescends<T(!new)>(ranks: (T, T) -> int, t: Tree<T>)
    requires TotalPreorder(ranks) && HeapOrdered(ranks, t)
    ensures NonIncreasing(ranks, PopAll(ranks, t))
    decreases Count(t)
  {
    if t.Node? {
      var t' := Pop(ranks, t).0;
      PopOrdered(ranks, t);
      PopAllDescends(ranks, t');
      PopAllPermutes(ranks, t');
      PopBelow(ranks, t, t.data);
      BelowExact(ranks, t', t.data);
      var rest := PopAll(ranks, t');
      forall j | 0 <= j < |rest| ensures !OutRanks(ranks, rest[j], t.data) {
        assert rest[j] in multiset(rest);
      }
    }
  }

  /** Pushing any items and popping until empty yields them all, in non-increasing rank. */
  lemma PushThenPopSorts<T(!new)>(ranks: (T, T) -> int, xs: seq<T>)
    requires TotalPreorder(ranks)
    ensures multiset(PopAll(ranks, PushAll(ranks, Leaf, xs))) == multiset(xs)
    ensures NonIncreasing(ranks, PopAll(ranks, PushAll(ranks, Leaf, xs)))
  {
    PushAllValid(ranks, Leaf, xs);
    PushAllElements(ranks, Leaf, xs);
    PopAllPermutes(ranks, PushAll(ranks, Leaf, xs));
    PopAllDescends(ranks, PushAll(ranks, Leaf, xs));
  }
}
