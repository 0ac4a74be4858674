/** The heap as the program keeps it: linked nodes whose data are swapped and whose links are
    cut in place.  Every method is proved to act on `Shape`, the tree a node stands for, as
    the operation of the same name in HeapTree does. */
module HeapObjects {
  import opened HeapTree

  class LocHeapNode {
    var mSize: int
    var mLeft: LocHeapNode?
    var mRight: LocHeapNode?
    var mData: Rankable

    ghost var Repr: set<object>
    ghost var Shape: Tree

    ghost predicate Valid()
      reads this, Repr
      ensures Valid() ==> this in Repr
    {
      && this in Repr
      && (mLeft != null ==>
            mLeft in Repr && mLeft.Repr <= Repr && this !in mLeft.Repr && mLeft.Valid())
      && (mRight != null ==>
            mRight in Repr && mRight.Repr <= Repr && this !in mRight.Repr && mRight.Valid())
      && (mLeft != null && mRight != null ==> mLeft.Repr !! mRight.Repr)
      && Shape == Node(mSize, mData, ShapeOf(mLeft), ShapeOf(mRight))
    }

    static ghost function ShapeOf(n: LocHeapNode?): Tree
      reads n
    {
      if n == null then Nil else n.Shape
    }

    /** A node with no links left: freeing it frees no other node. */
    ghost predicate Detached()
      reads this
    {
      mLeft == null && mRight == null
    }

    constructor (data: Rankable)
      ensures Valid() && Repr == {this} && fresh(this) && Shape == Single(data)
    {
      mSize, mLeft, mRight, mData := 1, null, null, data;
      Repr, Shape := {this}, Single(data);
    }

    /** Exchanges the data of two nodes; no link changes. */
    method Swap(node: LocHeapNode)
      requires node.Valid() && this !in node.Repr && Shape.Node?
      modifies this`mData, this`Shape, node`mData, node`Shape
      ensures mData == old(node.mData) && node.mData == old(mData)
      ensures Shape == old(Shape).(data := mData)
      ensures node.Shape == old(node.Shape).(data := node.mData)
      ensures node.Valid()
      ensures old(Valid()) && node !in Repr ==> Valid()
    {
      mData, node.mData := node.mData, mData;
      Shape := Shape.(data := mData);
      node.Shape := node.Shape.(data := node.mData);
    }

    /** Pushes a lone node, exchanging data on the way down; no existing link changes. */
    method Push(node: LocHeapNode)
      requires Valid() && node.Valid() && node !in Repr
      requires node.Repr == {node} && node.Shape == Single(node.mData)
      modifies Repr, node
      ensures Valid() && Repr == old(Repr) + {node}
      ensures Shape == HeapTree.Push(old(Shape), old(node.mData))
      decreases Repr
    {
      if OutRanks(node.mData, mData) {
        Swap(node);
      }
      Drop(node);
    }

    /** The second half of a push: the node, which no longer outranks this one, goes down. */
    method Drop(node: LocHeapNode)
      requires Valid() && node.Valid() && node !in Repr
      requires node.Repr == {node} && node.Shape == Single(node.mData)
      requires !OutRanks(node.mData, mData)
      modifies Repr, node
      ensures Valid() && Repr == old(Repr) + {node}
      ensures Shape == HeapTree.Push(old(Shape), old(node.mData))
      decreases Repr, 0
    {
      PushUnfolds(Shape, node.mData);
      hide HeapTree.Push, PushesLeft;
      if mLeft == null {
        mLeft := node;
      } else if mRight == null {
        mRight := node;
      } else if mLeft.mSize <= mRight.mSize {
        mLeft.Push(node);
      } else {
        mRight.Push(node);
      }
      mSize := mSize + 1;
      Repr := Repr + {node};
      Shape := Node(mSize, mData, ShapeOf(mLeft), ShapeOf(mRight));
    }

    /** Stores the shrunken subtree back into the link it came from. */
    method Relink(left: bool, sub: LocHeapNode?, ghost gone: LocHeapNode)
      requires this in Repr && this != gone
      requires sub != null ==> sub.Valid() && sub.Repr <= Repr - {this, gone}
      requires var other := if left then mRight else mLeft;
               other != null ==> other.Valid() && other.Repr <= Repr - {this, gone} &&
                                 (sub != null ==> sub.Repr !! other.Repr)
      modifies this
      ensures Valid() && Repr == old(Repr) - {gone}
      ensures mSize == old(mSize) && mData == old(mData)
      ensures left ==> Shape == Node(mSize, mData, ShapeOf(sub), old(ShapeOf(mRight)))
      ensures !left ==> Shape == Node(mSize, mData, old(ShapeOf(mLeft)), ShapeOf(sub))
    {
      if left {
        mLeft := sub;
      } else {
        mRight := sub;
      }
      Repr := Repr - {gone};
      Shape := Node(mSize, mData, ShapeOf(mLeft), ShapeOf(mRight));
    }

    /** Sinks the top's datum to a leaf along the higher ranking children and cuts that leaf
        off.  `top'` is what the caller's link to `top` becomes. */
    static method Pop(top: LocHeapNode) returns (top': LocHeapNode?, popped: LocHeapNode)
      requires top.Valid()
      modifies top.Repr
      ensures popped in old(top.Repr) && popped.Detached() && popped.mData == old(top.mData)
      ensures top' == null || top' == top
      ensures top' != null ==> top.Valid() && top.Repr <= old(top.Repr) && popped !in top.Repr
      ensures ShapeOf(top') == HeapTree.Pop(old(top.Shape))
      decreases top.Repr
    {
      ghost var t := top.Shape;
      top.mSize := top.mSize - 1;
      if top.mLeft != null || top.mRight != null {
        var goLeft := top.mLeft != null &&
          (top.mRight == null || OutRanks(top.mLeft.mData, top.mRight.mData));
        var subTop := if goLeft then top.mLeft else top.mRight;
        PopUnfolds(t, goLeft, subTop.Shape, t.data);
        top.Swap(subTop);
        var subTop';
        subTop', popped := Pop(subTop);
        top.Relink(goLeft, subTop', popped);
        top' := top;
      } else {
        top', popped := null, top;
      }
    }

    /** Searches for `x` by identity and pops the node holding it out of its subtree. */
    static method Remove(top: LocHeapNode, x: Rankable)
      returns (top': LocHeapNode?, removed: LocHeapNode?)
      requires top.Valid()
      modifies top.Repr
      ensures top' == null || top' == top
      ensures top' != null ==> top.Valid() && top.Repr <= old(top.Repr)
      ensures removed == null ==>
                && top' == top && unchanged(old(top.Repr))
                && HeapTree.Remove(old(top.Shape), x) == Missing
      ensures removed != null ==>
                && removed in old(top.Repr) && removed.Detached() && removed.mData == x
                && (top' != null ==> removed !in top.Repr)
                && HeapTree.Remove(old(top.Shape), x) == Removed(ShapeOf(top'))
      decreases top.Repr, 1
    {
      top', removed := top, null;
      if x == top.mData {
        top', removed := Pop(top);
      } else if !OutRanks(x, top.mData) {
        removed := top.RemoveBelow(true, x);
        if removed == null {
          removed := top.RemoveBelow(false, x);
        }
      }
    }

    /** Searches one subtree, if there is one, and accounts for the node it lost. */
    method RemoveBelow(left: bool, x: Rankable) returns (removed: LocHeapNode?)
      requires Valid()
      modifies Repr
      ensures Valid() && Repr <= old(Repr)
      ensures removed == null ==> unchanged(old(Repr))
      ensures removed == null ==>
                HeapTree.Remove(if left then old(Shape).left else old(Shape).right, x) == Missing
      ensures removed != null ==>
                && removed in old(Repr) && removed.Detached() && removed.mData == x
                && removed !in Repr
      ensures removed != null && left ==>
                HeapTree.Remove(old(Shape).left, x) == Removed(Shape.left) &&
                Shape == Node(old(mSize) - 1, old(mData), Shape.left, old(Shape).right)
      ensures removed != null && !left ==>
                HeapTree.Remove(old(Shape).right, x) == Removed(Shape.right) &&
                Shape == Node(old(mSize) - 1, old(mData), old(Shape).left, Shape.right)
      decreases Repr, 0
    {
      removed := null;
      var subTop := if left then mLeft else mRight;
      if subTop != null {
        var subTop';
        subTop', removed := Remove(subTop, x);
        if removed != null {
          mSize := mSize - 1;
          Relink(left, subTop', removed);
        }
      }
    }
  }

  /** A heap of client objects.  Each operation is the one HeapTree.Apply performs on the
      tree, and so a step of the priority multiset of the objects stored. */
  class LocHeap {
    var mTree: LocHeapNode?
    ghost var Repr: set<object>

    ghost function Model(): Tree
      reads this, mTree
    {
      LocHeapNode.ShapeOf(mTree)
    }

    ghost predicate Valid()
      reads this, Repr
      ensures Valid() ==> this in Repr
    {
      && this in Repr
      && (mTree != null ==>
            mTree in Repr && mTree.Repr <= Repr && this !in mTree.Repr && mTree.Valid())
      && Heap(Model())
    }

    constructor ()
      ensures Valid() && fresh(Repr) && Model() == Nil
    {
      mTree, Repr := null, {this};
    }

    method Push(x: Rankable)
      requires Valid()
      modifies Repr
      ensures Valid() && fresh(Repr - old(Repr))
      ensures (Model(), None) == Apply(old(Model()), OpPush(x))
    {
      ApplyHeap(Model(), OpPush(x));
      var node := new LocHeapNode(x);
      if mTree == null {
        mTree := node;
      } else {
        mTree.Push(node);
      }
      Repr := Repr + {node};
    }

    method Peek() returns (top: Answer)
      requires Valid()
      ensures top == None <==> Elements(Model()) == multiset{}
      ensures top.Some? ==> top.item == Model().data && top.item in Elements(Model())
      ensures top.Some? ==> forall x :: x in Elements(Model()) ==> !OutRanks(x, top.item)
    {
      if mTree == null {
        top := None;
      } else {
        PopTakes(Model());
        top := Some(mTree.mData);
      }
    }

    method Pop() returns (top: Answer)
      requires Valid()
      modifies Repr
      ensures Valid() && Repr <= old(Repr)
      ensures (Model(), top) == Apply(old(Model()), OpPop)
    {
      ApplyHeap(Model(), OpPop);
      top := None;
      if mTree != null {
        var tree, popped := LocHeapNode.Pop(mTree);
        mTree, top := tree, Some(popped.mData);
      }
    }

    method Remove(x: Rankable) returns (removed: Answer)
      requires Valid()
      modifies Repr
      ensures Valid() && Repr <= old(Repr)
      ensures (Model(), removed) == Apply(old(Model()), OpRemove(x))
    {
      ApplyHeap(Model(), OpRemove(x));
      removed := None;
      if mTree != null {
        var tree, node := LocHeapNode.Remove(mTree, x);
        mTree := tree;
        if node != null {
          removed := Some(node.mData);
        }
      }
    }
  }
}
