/** The value a LocHeap represents, and what its operations do to it.

    A `Rankable` stands for one client object: `addr` is its address, `key` its rank, fixed
    while the object lives.  A smaller key ranks higher, as a sooner deadline does.  Two
    values are the same object exactly when they are equal. */
module HeapTree {

  datatype Rankable = Rankable(addr: nat, key: int)

  predicate OutRanks(a: Rankable, b: Rankable) {
    a.key < b.key
  }

  datatype Tree = Nil | Node(size: int, data: Rankable, left: Tree, right: Tree)

  // ---------------------------------------------------------------- operations

  function Single(x: Rankable): Tree {
    Node(1, x, Nil, Nil)
  }

  /** Which subtree receives a pushed element. */
  predicate PushesLeft(t: Tree)
    requires t != Nil
  {
    t.left == Nil || (t.right != Nil && t.left.size <= t.right.size)
  }

  function Push(t: Tree, x: Rankable): Tree {
    match t
    case Nil => Single(x)
    case Node(n, d, l, r) =>
      var hi := if OutRanks(x, d) then x else d;
      var lo := if OutRanks(x, d) then d else x;
      if PushesLeft(t)
      then Node(n + 1, hi, Push(l, lo), r)
      else Node(n + 1, hi, l, Push(r, lo))
  }

  /** A push of an item that does not outrank the top, one step. */
  lemma PushUnfolds(t: Tree, x: Rankable)
    requires t != Nil && !OutRanks(x, t.data)
    ensures Push(t, x) ==
              if t.left == Nil then Node(t.size + 1, t.data, Single(x), t.right)
              else if t.right == Nil then Node(t.size + 1, t.data, t.left, Single(x))
              else if t.left.size <= t.right.size
              then Node(t.size + 1, t.data, Push(t.left, x), t.right)
              else Node(t.size + 1, t.data, t.left, Push(t.right, x))
  {
  }

  /** True when the hole left by popping the top is filled from the left subtree. */
  predicate TakesLeft(l: Tree, r: Tree) {
    l != Nil && (r == Nil || OutRanks(l.data, r.data))
  }

  function Pop(t: Tree): Tree
    requires t != Nil
  {
    if t.left == Nil && t.right == Nil then Nil
    else if TakesLeft(t.left, t.right)
    then Node(t.size - 1, t.left.data, Pop(t.left), t.right)
    else Node(t.size - 1, t.right.data, t.left, Pop(t.right))
  }

  /** What popping does to the tree does not depend on the datum that leaves. */
  lemma PopUnfolds(t: Tree, goLeft: bool, sub: Tree, x: Rankable)
    requires t != Nil && goLeft == TakesLeft(t.left, t.right)
    requires sub == (if goLeft then t.left else t.right) && sub != Nil
    ensures Pop(t) == if goLeft then Node(t.size - 1, sub.data, Pop(sub.(data := x)), t.right)
                      else Node(t.size - 1, sub.data, t.left, Pop(sub.(data := x)))
  {
  }

  datatype Removal = Missing | Removed(rest: Tree)

  /** Removal by identity; a subtree is searched only if `x` does not outrank its top. */
  function Remove(t: Tree, x: Rankable): Removal {
    match t
    case Nil => Missing
    case Node(n, d, l, r) =>
      if x == d then Removed(Pop(t))
      else if OutRanks(x, d) then Missing
      else
        match Remove(l, x)
        case Removed(l') => Removed(Node(n - 1, d, l', r))
        case Missing =>
          match Remove(r, x)
          case Removed(r') => Removed(Node(n - 1, d, l, r'))
          case Missing => Missing
  }

  // ---------------------------------------------------------------- what a heap is

  function Elements(t: Tree): multiset<Rankable> {
    match t
    case Nil => multiset{}
    case Node(_, d, l, r) => multiset{d} + Elements(l) + Elements(r)
  }

  /** No child outranks its parent. */
  ghost predicate Ordered(t: Tree) {
    t != Nil ==>
      && Ordered(t.left) && Ordered(t.right)
      && (t.left != Nil ==> !OutRanks(t.left.data, t.data))
      && (t.right != Nil ==> !OutRanks(t.right.data, t.data))
  }

  function Count(t: Tree): nat {
    match t
    case Nil => 0
    case Node(_, _, l, r) => 1 + Count(l) + Count(r)
  }

  /** Every node's size field counts exactly the nodes of its subtree. */
  ghost predicate Sized(t: Tree) {
    t != Nil ==> t.size == Count(t) && Sized(t.left) && Sized(t.right)
  }

  ghost predicate Heap(t: Tree) {
    Ordered(t) && Sized(t)
  }

  /** The self-check of the unit-test builds. */
  predicate CheckNodes(t: Tree)
    requires t != Nil
  {
    && (t.left != Nil ==> !OutRanks(t.left.data, t.data) && CheckNodes(t.left))
    && (t.right != Nil ==> !OutRanks(t.right.data, t.data) && CheckNodes(t.right))
    && t.size - (if t.left != Nil then t.left.size else 0)
       - (if t.right != Nil then t.right.size else 0) == 1
  }

  // ---------------------------------------------------------------- lemmas

  lemma {:induction false} CountElements(t: Tree)
    ensures |Elements(t)| == Count(t)
  {
    if t != Nil {
      CountElements(t.left);
      CountElements(t.right);
    }
  }

  lemma {:induction false} TopOutranked(t: Tree, x: Rankable)
    requires Ordered(t) && x in Elements(t)
    ensures t != Nil && !OutRanks(x, t.data)
  {
    if x != t.data {
      if x in Elements(t.left) {
        TopOutranked(t.left, x);
      } else {
        TopOutranked(t.right, x);
      }
    }
  }

  lemma SizeIsCount(t: Tree)
    requires Sized(t)
    ensures t != Nil ==> t.size == Count(t)
  {
  }

  /** The self-check accepts exactly the trees that are heaps with exact sizes. */
  lemma {:induction false} CheckNodesIsHeap(t: Tree)
    requires t != Nil
    ensures CheckNodes(t) <==> Heap(t)
  {
    if t.left != Nil {
      CheckNodesIsHeap(t.left);
    }
    if t.right != Nil {
      CheckNodesIsHeap(t.right);
    }
    if CheckNodes(t) {
      SizeIsCount(t.left);
      SizeIsCount(t.right);
      assert Ordered(t);
      assert Sized(t);
    }
    if Heap(t) {
      SizeIsCount(t.left);
      SizeIsCount(t.right);
      assert t.left != Nil ==> CheckNodes(t.left);
      assert t.right != Nil ==> CheckNodes(t.right);
    }
  }

  lemma {:induction false} PushElements(t: Tree, x: Rankable)
    ensures Elements(Push(t, x)) == Elements(t) + multiset{x}
  {
    if t != Nil {
      var lo := if OutRanks(x, t.data) then t.data else x;
      if PushesLeft(t) {
        PushElements(t.left, lo);
      } else {
        PushElements(t.right, lo);
      }
    }
  }

  lemma {:induction false} PushHeap(t: Tree, x: Rankable)
    requires Heap(t)
    ensures Heap(Push(t, x)) && Count(Push(t, x)) == Count(t) + 1
    ensures Push(t, x).data == if t == Nil || OutRanks(x, t.data) then x else t.data
  {
    if t != Nil {
      var lo := if OutRanks(x, t.data) then t.data else x;
      PushHeap(if PushesLeft(t) then t.left else t.right, lo);
    }
  }

  /** A pop moves the higher ranking child up, the right one if they rank the same. */
  lemma PopPromotes(t: Tree)
    requires t != Nil && t.left != Nil && t.right != Nil
    ensures Pop(t) != Nil
    ensures Pop(t).data ==
              if t.left.data.key < t.right.data.key then t.left.data else t.right.data
  {
  }

  lemma {:induction false} PopElements(t: Tree)
    requires t != Nil
    ensures Elements(t) == Elements(Pop(t)) + multiset{t.data}
  {
    if t.left == Nil && t.right == Nil {
    } else if TakesLeft(t.left, t.right) {
      PopElements(t.left);
    } else {
      PopElements(t.right);
    }
  }

  lemma {:induction false} PopHeap(t: Tree)
    requires Heap(t) && t != Nil
    ensures Heap(Pop(t)) && Count(Pop(t)) == Count(t) - 1
    ensures Pop(t) != Nil ==> !OutRanks(Pop(t).data, t.data)
  {
    if t.left == Nil && t.right == Nil {
    } else if TakesLeft(t.left, t.right) {
      PopHeap(t.left);
    } else {
      PopHeap(t.right);
    }
  }

  /** Rank pruning never hides a stored object. */
  lemma {:induction false} RemoveFinds(t: Tree, x: Rankable)
    requires Ordered(t)
    ensures Remove(t, x).Removed? <==> x in Elements(t)
  {
    if t != Nil && x != t.data {
      if OutRanks(x, t.data) {
        if x in Elements(t) {
          TopOutranked(t, x);
        }
      } else {
        RemoveFinds(t.left, x);
        RemoveFinds(t.right, x);
      }
    }
  }

  lemma {:induction false} RemoveElements(t: Tree, x: Rankable)
    requires Remove(t, x).Removed?
    ensures Elements(t) == Elements(Remove(t, x).rest) + multiset{x}
  {
    if x == t.data {
      PopElements(t);
    } else if Remove(t.left, x).Removed? {
      RemoveElements(t.left, x);
    } else {
      RemoveElements(t.right, x);
    }
  }

  lemma {:induction false} RemoveHeap(t: Tree, x: Rankable)
    requires Heap(t) && Remove(t, x).Removed?
    ensures var rest := Remove(t, x).rest;
            && Heap(rest) && Count(rest) == Count(t) - 1
            && (rest != Nil ==> !OutRanks(rest.data, t.data))
            && (x != t.data ==> rest != Nil && rest.data == t.data)
  {
    if x == t.data {
      PopHeap(t);
    } else if Remove(t.left, x).Removed? {
      RemoveHeap(t.left, x);
    } else {
      RemoveHeap(t.right, x);
    }
  }

  // ---------------------------------------------------------------- balance

  function Height(t: Tree): nat {
    match t
    case Nil => 0
    case Node(_, _, l, r) => 1 + if Height(l) >= Height(r) then Height(l) else Height(r)
  }

  function Pow2(n: nat): nat {
    if n == 0 then 1 else 2 * Pow2(n - 1)
  }

  /** The left subtree has as many nodes as the right one, or one more, at every node. */
  ghost predicate Balanced(t: Tree) {
    t != Nil ==>
      && 0 <= Count(t.left) - Count(t.right) <= 1
      && Balanced(t.left) && Balanced(t.right)
  }

  function PushAll(xs: seq<Rankable>): Tree {
    if xs == [] then Nil else Push(PushAll(xs[..|xs| - 1]), xs[|xs| - 1])
  }

  lemma {:induction false} PushBalanced(t: Tree, x: Rankable)
    requires Heap(t) && Balanced(t)
    ensures Balanced(Push(t, x))
  {
    if t != Nil {
      var lo := if OutRanks(x, t.data) then t.data else x;
      assert Sized(t.left) && Sized(t.right);
      PushBalanced(if PushesLeft(t) then t.left else t.right, lo);
      PushHeap(if PushesLeft(t) then t.left else t.right, lo);
    }
  }

  lemma {:induction false} MoreIsHigher(a: Tree, b: Tree)
    requires Balanced(a) && Balanced(b) && Count(a) >= Count(b)
    ensures Height(a) >= Height(b)
  {
    if b != Nil {
      MoreIsHigher(a.left, b.left);
      MoreIsHigher(a.right, b.right);
    }
  }

  lemma {:induction false} BalancedHeight(t: Tree)
    requires Balanced(t) && t != Nil
    ensures Pow2(Height(t) - 1) <= Count(t) < Pow2(Height(t))
  {
    hide Pow2;
    MoreIsHigher(t.left, t.right);
    if t.left != Nil {
      BalancedHeight(t.left);
      Doubling(Height(t.left), Count(t.left), Count(t.right));
    } else {
      FirstPowers();
    }
  }

  lemma FirstPowers()
    ensures Pow2(0) == 1 && Pow2(1) == 2
  {
  }

  lemma Doubling(h: nat, left: nat, right: nat)
    requires h > 0 && Pow2(h - 1) <= left < Pow2(h) && left - 1 <= right <= left
    ensures Pow2(h) <= 1 + left + right < Pow2(h + 1)
  {
  }

  lemma EmptyBalance()
    ensures Heap(Nil) && Balanced(Nil)
  {
  }

  lemma PushIsNode(t: Tree, x: Rankable)
    ensures Push(t, x) != Nil
  {
  }

  /** A heap that was only ever pushed to has minimal height. */
  lemma {:induction false} PushOnlyBalance(xs: seq<Rankable>)
    ensures Heap(PushAll(xs)) && Balanced(PushAll(xs)) && Count(PushAll(xs)) == |xs|
    ensures xs != [] ==>
              Pow2(Height(PushAll(xs)) - 1) <= |xs| < Pow2(Height(PushAll(xs)))
  {
    hide Pow2, Height, Balanced, Heap, Push;
    if xs == [] {
      EmptyBalance();
    } else {
      var init, last := xs[..|xs| - 1], xs[|xs| - 1];
      PushOnlyBalance(init);
      PushIsNode(PushAll(init), last);
      PushBalanced(PushAll(init), last);
      PushHeap(PushAll(init), last);
      BalancedHeight(PushAll(xs));
    }
  }

  // ---------------------------------------------------------------- whole runs

  datatype Op = OpPush(x: Rankable) | OpPop | OpRemove(y: Rankable)
  datatype Answer = None | Some(item: Rankable)

  function Apply(t: Tree, op: Op): (Tree, Answer) {
    match op
    case OpPush(x) => (Push(t, x), None)
    case OpPop => if t == Nil then (Nil, None) else (Pop(t), Some(t.data))
    case OpRemove(y) =>
      match Remove(t, y)
      case Missing => (t, None)
      case Removed(rest) => (rest, Some(y))
  }

  function HeapRun(ops: seq<Op>): Tree {
    if ops == [] then Nil else Apply(HeapRun(ops[..|ops| - 1]), ops[|ops| - 1]).0
  }

  /** One step of a priority multiset keyed by identity, which a LocHeap should be. */
  ghost predicate BagStep(bag: multiset<Rankable>, op: Op, answer: Answer, bag': multiset<Rankable>) {
    match op
    case OpPush(x) => answer == None && bag' == bag + multiset{x}
    case OpPop =>
      if bag == multiset{} then answer == None && bag' == bag
      else
        && answer.Some? && answer.item in bag
        && (forall x :: x in bag ==> !OutRanks(x, answer.item))
        && bag' == bag - multiset{answer.item}
    case OpRemove(y) =>
      if y in bag then answer == Some(y) && bag' == bag - multiset{y}
      else answer == None && bag' == bag
  }

  lemma {:induction false} ApplyHeap(t: Tree, op: Op)
    requires Heap(t)
    ensures Heap(Apply(t, op).0)
  {
    match op
    case OpPush(x) => PushHeap(t, x);
    case OpPop =>
      if t != Nil {
        PopHeap(t);
      }
    case OpRemove(y) =>
      if Remove(t, y).Removed? {
        RemoveHeap(t, y);
      }
  }

  lemma {:induction false} PopTakes(t: Tree)
    requires Ordered(t) && t != Nil
    ensures t.data in Elements(t)
    ensures forall x :: x in Elements(t) ==> !OutRanks(x, t.data)
    ensures Elements(Pop(t)) == Elements(t) - multiset{t.data}
  {
    forall x | x in Elements(t) ensures !OutRanks(x, t.data) {
      TopOutranked(t, x);
    }
    PopElements(t);
  }

  lemma {:induction false} RemoveTakes(t: Tree, x: Rankable)
    requires Ordered(t)
    ensures Remove(t, x).Removed? <==> x in Elements(t)
    ensures Remove(t, x).Removed? ==> Elements(Remove(t, x).rest) == Elements(t) - multiset{x}
  {
    RemoveFinds(t, x);
    if Remove(t, x).Removed? {
      RemoveElements(t, x);
    }
  }

  lemma {:induction false} ApplyIsBagStep(t: Tree, op: Op)
    requires Ordered(t)
    ensures BagStep(Elements(t), op, Apply(t, op).1, Elements(Apply(t, op).0))
  {
    match op
    case OpPush(x) => PushElements(t, x);
    case OpPop =>
      if t != Nil {
        PopTakes(t);
      }
    case OpRemove(y) => RemoveTakes(t, y);
  }

  /** Every run of pushes, pops and removals from the empty heap keeps order and exact sizes,
      and its next operation is a step of the priority multiset. */
  lemma {:induction false} HeapRefinesBag(ops: seq<Op>, op: Op)
    ensures Heap(HeapRun(ops))
    ensures var (t', answer) := Apply(HeapRun(ops), op);
            Heap(t') && BagStep(Elements(HeapRun(ops)), op, answer, Elements(t'))
  {
    if ops != [] {
      HeapRefinesBag(ops[..|ops| - 1], ops[|ops| - 1]);
    }
    var t := HeapRun(ops);
    ApplyHeap(t, op);
    ApplyIsBagStep(t, op);
  }
}
