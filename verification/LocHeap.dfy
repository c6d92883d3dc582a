/**
 gps/utils/LocHeap.cpp: nodes that are changed in place through pointers. Every
 method is proved to do to the nodes what the functions of HeapTree do to the tree
 they represent.
 */
module LocHeaps {
  import opened Wrappers
  import opened HeapTree

  class LocHeapNode {
    var mSize: int
    var mLeft: LocHeapNode?
    var mRight: LocHeapNode?
    var mData: Rankable

    ghost var nodes: set<LocHeapNode>
    ghost var tree: Tree

    ghost predicate Valid()
      reads this, nodes
      ensures Valid() ==> tree.Node?
    {
      && this in nodes
      && (mLeft != null ==> mLeft in nodes && mLeft.nodes <= nodes && this !in mLeft.nodes && mLeft.Valid())
      && (mRight != null ==> mRight in nodes && mRight.nodes <= nodes && this !in mRight.nodes && mRight.Valid())
      && (mLeft != null && mRight != null ==> mLeft.nodes !! mRight.nodes)
      && tree == Node(mSize, mData, TreeOf(mLeft), TreeOf(mRight))
    }

    static ghost function TreeOf(t: LocHeapNode?): Tree
      reads t
    {
      if t == null then Nil else t.tree
    }

    constructor (data: Rankable)
      ensures Valid() && nodes == {this} && tree == Leaf(data)
    {
      mSize, mLeft, mRight, mData := 1, null, null, data;
      nodes, tree := {this}, Leaf(data);
    }

    method Push(outRanks: Ranking, node: LocHeapNode)
      requires Valid() && node.Valid() && node.nodes == {node} && node.tree == Leaf(node.mData) && node !in nodes
      modifies nodes, node
      ensures Valid() && nodes == old(nodes) + {node}
      ensures tree == HeapTree.Push(outRanks, old(tree), old(node.mData))
      decreases nodes, 1
    {
      if outRanks(node.mData, mData) {
        Swap(node);
      }
      if mLeft == null {
        DropLeft(outRanks, node);
      } else if mRight == null {
        DropRight(outRanks, node);
      } else if mLeft.mSize <= mRight.mSize {
        DropLeft(outRanks, node);
      } else {
        DropRight(outRanks, node);
      }
    }

    // Swap the data of this node and a single node.
    method Swap(node: LocHeapNode)
      requires Valid() && node.Valid() && node.nodes == {node} && node.tree == Leaf(node.mData) && node !in nodes
      modifies this, node
      ensures Valid() && node.Valid() && nodes == old(nodes) && node.nodes == {node}
      ensures node.tree == Leaf(old(mData)) && tree == old(tree).(data := old(node.mData))
    {
      node.mData, mData := mData, node.mData;
      node.tree, tree := Leaf(node.mData), tree.(data := mData);
      assert mLeft != null ==> mLeft.Valid();
      assert mRight != null ==> mRight.Valid();
    }

    method DropLeft(outRanks: Ranking, node: LocHeapNode)
      requires Valid() && node.Valid() && node.nodes == {node} && node.tree == Leaf(node.mData) && node !in nodes
      modifies nodes, node
      ensures Valid() && nodes == old(nodes) + {node}
      ensures tree == Node(old(mSize) + 1, old(mData), HeapTree.Push(outRanks, old(tree).left, old(node.mData)),
        old(tree).right)
      decreases nodes, 0
    {
      if mLeft == null {
        mLeft := node;
      } else {
        mLeft.Push(outRanks, node);
      }
      mSize := mSize + 1;
      nodes := nodes + {node};
      tree := Node(mSize, mData, TreeOf(mLeft), TreeOf(mRight));
      assert mRight != null ==> mRight.Valid();
    }

    method DropRight(outRanks: Ranking, node: LocHeapNode)
      requires Valid() && node.Valid() && node.nodes == {node} && node.tree == Leaf(node.mData) && node !in nodes
      modifies nodes, node
      ensures Valid() && nodes == old(nodes) + {node}
      ensures tree == Node(old(mSize) + 1, old(mData), old(tree).left,
        HeapTree.Push(outRanks, old(tree).right, old(node.mData)))
      decreases nodes, 0
    {
      if mRight == null {
        mRight := node;
      } else {
        mRight.Push(outRanks, node);
      }
      mSize := mSize + 1;
      nodes := nodes + {node};
      tree := Node(mSize, mData, TreeOf(mLeft), TreeOf(mRight));
      assert mLeft != null ==> mLeft.Valid();
    }

    // Give this node other contents; the links stay.
    method Set(size: int, data: Rankable)
      requires Valid()
      modifies this
      ensures Valid() && nodes == old(nodes) && mLeft == old(mLeft) && mRight == old(mRight)
      ensures tree == old(tree).(size := size, data := data)
    {
      mSize, mData := size, data;
      tree := tree.(size := size, data := data);
      assert mLeft != null ==> mLeft.Valid();
      assert mRight != null ==> mRight.Valid();
    }

    // Pop the data of top out of its tree. The node that comes off carries that data;
    // the pointer to the tree becomes null when it was the last one.
    static method Pop(outRanks: Ranking, top: LocHeapNode) returns (popped: LocHeapNode, top': LocHeapNode?)
      requires top.Valid()
      modifies top.nodes
      ensures popped in old(top.nodes) && popped.mData == old(top.mData)
      ensures top' == if HeapTree.Pop(outRanks, old(top.tree)) == Nil then null else top
      ensures top' != null ==>
        top.Valid() && top.nodes == old(top.nodes) - {popped} && top.tree == HeapTree.Pop(outRanks, old(top.tree))
      decreases top.nodes, 1
    {
      top.Set(top.mSize - 1, top.mData);
      if top.mLeft == null && top.mRight == null {
        return top, null;
      }
      if top.mLeft != null && (top.mRight == null || outRanks(top.mLeft.mData, top.mRight.mData)) {
        popped := top.PopLeft(outRanks);
      } else {
        popped := top.PopRight(outRanks);
      }
      top' := top;
    }

    // The data of this node goes down on the left.
    method PopLeft(outRanks: Ranking) returns (popped: LocHeapNode)
      requires Valid() && mLeft != null
      modifies nodes
      ensures popped in old(mLeft.nodes) && popped.mData == old(mData)
      ensures Valid() && nodes == old(nodes) - {popped}
      ensures tree == Node(old(mSize), old(mLeft.mData), HeapTree.Pop(outRanks, old(mLeft.tree)), old(TreeOf(mRight)))
      decreases nodes, 0
    {
      var data := mData;
      mData := mLeft.mData;
      mLeft.Set(mLeft.mSize, data);
      var sub;
      popped, sub := Pop(outRanks, mLeft);
      mLeft := sub;
      nodes := nodes - {popped};
      tree := Node(mSize, mData, TreeOf(mLeft), TreeOf(mRight));
      assert mRight != null ==> mRight.Valid();
    }

    // The data of this node goes down on the right.
    method PopRight(outRanks: Ranking) returns (popped: LocHeapNode)
      requires Valid() && mRight != null
      modifies nodes
      ensures popped in old(mRight.nodes) && popped.mData == old(mData)
      ensures Valid() && nodes == old(nodes) - {popped}
      ensures tree == Node(old(mSize), old(mRight.mData), old(TreeOf(mLeft)), HeapTree.Pop(outRanks, old(mRight.tree)))
      decreases nodes, 0
    {
      var data := mData;
      mData := mRight.mData;
      mRight.Set(mRight.mSize, data);
      var sub;
      popped, sub := Pop(outRanks, mRight);
      mRight := sub;
      nodes := nodes - {popped};
      tree := Node(mSize, mData, TreeOf(mLeft), TreeOf(mRight));
      assert mLeft != null ==> mLeft.Valid();
    }
  
    // Search the tree for data by address and pop it out where it is found.
    static method Remove(outRanks: Ranking, top: LocHeapNode, data: Rankable)
      returns (removed: LocHeapNode?, top': LocHeapNode?)
      requires top.Valid()
      modifies top.nodes
      ensures removed == null <==> HeapTree.Remove(outRanks, old(top.tree), data) == None
      ensures removed == null ==> top' == top && top.Valid() && top.tree == old(top.tree) && top.nodes == old(top.nodes)
      ensures removed != null ==>
        var t := HeapTree.Remove(outRanks, old(top.tree), data).value;
        && removed in old(top.nodes) && removed.mData == data
        && top' == (if t == Nil then null else top)
        && (top' != null ==> top.Valid() && top.nodes == old(top.nodes) - {removed} && top.tree == t)
      decreases top.nodes, 1
    {
      removed, top' := null, top;
      if data == top.mData {
        removed, top' := Pop(outRanks, top);
      } else if !outRanks(data, top.mData) {
        if top.mLeft != null {
          removed := top.RemoveLeft(outRanks, data);
        }
        if removed == null && top.mRight != null {
          removed := top.RemoveRight(outRanks, data);
        }
      }
    }

    method RemoveLeft(outRanks: Ranking, data: Rankable) returns (removed: LocHeapNode?)
      requires Valid() && mLeft != null
      modifies nodes
      ensures Valid() && (removed == null <==> HeapTree.Remove(outRanks, old(mLeft.tree), data) == None)
      ensures removed == null ==> nodes == old(nodes) && tree == old(tree) && mRight == old(mRight)
      ensures removed != null ==>
        && removed in old(mLeft.nodes) && removed.mData == data && nodes == old(nodes) - {removed}
        && tree == Node(old(mSize) - 1, old(mData), HeapTree.Remove(outRanks, old(mLeft.tree), data).value,
          old(tree).right)
      decreases nodes, 0
    {
      var sub;
      removed, sub := Remove(outRanks, mLeft, data);
      mLeft := sub;
      if removed != null {
        mSize := mSize - 1;
        nodes := nodes - {removed};
      }
      tree := Node(mSize, mData, TreeOf(mLeft), TreeOf(mRight));
      assert mRight != null ==> mRight.Valid();
    }

    method RemoveRight(outRanks: Ranking, data: Rankable) returns (removed: LocHeapNode?)
      requires Valid() && mRight != null
      modifies nodes
      ensures Valid() && (removed == null <==> HeapTree.Remove(outRanks, old(mRight.tree), data) == None)
      ensures removed == null ==> nodes == old(nodes) && tree == old(tree) && mLeft == old(mLeft)
      ensures removed != null ==>
        && removed in old(mRight.nodes) && removed.mData == data && nodes == old(nodes) - {removed}
        && tree == Node(old(mSize) - 1, old(mData), old(tree).left,
          HeapTree.Remove(outRanks, old(mRight.tree), data).value)
      decreases nodes, 0
    {
      var sub;
      removed, sub := Remove(outRanks, mRight, data);
      mRight := sub;
      if removed != null {
        mSize := mSize - 1;
        nodes := nodes - {removed};
      }
      tree := Node(mSize, mData, TreeOf(mLeft), TreeOf(mRight));
      assert mLeft != null ==> mLeft.Valid();
    }
  }

  class LocHeap {
    var mTree: LocHeapNode?
    const outRanks: Ranking

    ghost var tree: Tree

    // The nodes represent the tree, and the tree is a heap.
    ghost predicate Valid()
      reads this, mTree, Nodes()
    {
      && (mTree != null ==> mTree.Valid()) && tree == (if mTree == null then Nil else mTree.tree)
      && StrictWeakOrder(outRanks) && CheckNodes(outRanks, tree)
    }

    ghost function Nodes(): set<LocHeapNode>
      reads this, mTree
    {
      if mTree == null then {} else mTree.nodes
    }

    constructor (outRanks: Ranking)
      requires StrictWeakOrder(outRanks)
      ensures Valid() && this.outRanks == outRanks && tree == Nil && Nodes() == {}
    {
      mTree, tree := null, Nil;
      this.outRanks := outRanks;
    }

    // Push, Pop and Remove take the step Apply gives; HeapTree.RunRefinesBag says what
    // any sequence of such steps amounts to.
    method Push(x: Rankable)
      requires Valid()
      modifies this, mTree, Nodes()
      ensures Valid() && (tree, None) == Apply(outRanks, old(tree), PushOp(x)) && fresh(Nodes() - old(Nodes()))
    {
      var node := new LocHeapNode(x);
      if mTree == null {
        mTree := node;
      } else {
        mTree.Push(outRanks, node);
      }
      PushKeepsOrder(outRanks, tree, x);
      tree := mTree.tree;
    }

    method Peek() returns (top: Option<Rankable>)
      requires Valid()
      ensures (tree, top) == Apply(outRanks, tree, PeekOp)
      ensures top == None <==> Elems(tree) == multiset{}
      ensures top.Some? ==> top.value in Elems(tree) && Tops(outRanks, top.value, Elems(tree))
    {
      if mTree == null {
        return None;
      }
      RootTops(outRanks, tree);
      return Some(mTree.mData);
    }

    method Pop() returns (out: Option<Rankable>)
      requires Valid()
      modifies this, mTree, Nodes()
      ensures Valid() && (tree, out) == Apply(outRanks, old(tree), PopOp) && Nodes() <= old(Nodes())
    {
      if mTree == null {
        return None;
      }
      PopKeepsOrder(outRanks, tree);
      var node, top := LocHeapNode.Pop(outRanks, mTree);
      mTree := top;
      tree := if mTree == null then Nil else mTree.tree;
      return Some(node.mData);
    }

    method Remove(x: Rankable) returns (out: Option<Rankable>)
      requires Valid()
      modifies this, mTree, Nodes()
      ensures Valid() && (tree, out) == Apply(outRanks, old(tree), RemoveOp(x)) && Nodes() <= old(Nodes())
    {
      RemoveKeepsOrder(outRanks, tree, x);
      if mTree == null {
        return None;
      }
      var node, top := LocHeapNode.Remove(outRanks, mTree, x);
      mTree := top;
      tree := if mTree == null then Nil else mTree.tree;
      return if node == null then None else Some(node.mData);
    }
  }
}
