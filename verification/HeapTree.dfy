/**
 The tree behind gps/utils/LocHeap.cpp as a value: what pushing, popping and removing
 do to it, and what they keep.

 An element stands for the address of a LocRankable object, so equality is identity;
 outRanks is the client's ranking.
 */
module HeapTree {
  import opened Wrappers

  // The address of an object that the client ranks.
  type Rankable = int

  datatype Tree = Nil | Node(size: int, data: Rankable, left: Tree, right: Tree)

  type Ranking = (Rankable, Rankable) -> bool

  ghost predicate Ranked(outRanks: Ranking, x: Rankable, y: Rankable, z: Rankable) {
    && !outRanks(x, x)
    && (outRanks(x, y) && outRanks(y, z) ==> outRanks(x, z))
    && (outRanks(x, z) ==> outRanks(x, y) || outRanks(y, z))
  }

  ghost predicate StrictWeakOrder(outRanks: Ranking) {
    forall x, y, z :: Ranked(outRanks, x, y, z)
  }

  /* The operations of the source. */

  function Leaf(x: Rankable): Tree {
    Node(1, x, Nil, Nil)
  }

  predicate GoesLeft(left: Tree, right: Tree) {
    left.Nil? || (right.Node? && left.size <= right.size)
  }

  function Push(outRanks: Ranking, t: Tree, x: Rankable): Tree
    decreases t
  {
    if t.Nil? then Leaf(x)
    else
      var (top, rest) := if outRanks(x, t.data) then (x, t.data) else (t.data, x);
      if GoesLeft(t.left, t.right)
      then Node(t.size + 1, top, Push(outRanks, t.left, rest), t.right)
      else Node(t.size + 1, top, t.left, Push(outRanks, t.right, rest))
  }

  predicate TakesLeft(outRanks: Ranking, left: Tree, right: Tree) {
    left.Node? && (right.Nil? || outRanks(left.data, right.data))
  }

  // What is left after the data of the top has been swapped down to a leaf and the
  // leaf detached.
  function Pop(outRanks: Ranking, t: Tree): Tree
    requires t.Node?
    decreases t
  {
    if t.left.Nil? && t.right.Nil? then Nil
    else if TakesLeft(outRanks, t.left, t.right)
    then Node(t.size - 1, t.left.data, Pop(outRanks, t.left), t.right)
    else Node(t.size - 1, t.right.data, t.left, Pop(outRanks, t.right))
  }

  // The tree without x, or nothing if the search does not come across x.
  function Remove(outRanks: Ranking, t: Tree, x: Rankable): Option<Tree>
    decreases t
  {
    if t.Nil? then None
    else if t.data == x then Some(Pop(outRanks, t))
    else if outRanks(x, t.data) then None
    else
      match Remove(outRanks, t.left, x)
      case Some(l) => Some(Node(t.size - 1, t.data, l, t.right))
      case None =>
        match Remove(outRanks, t.right, x)
        case Some(r) => Some(Node(t.size - 1, t.data, t.left, r))
        case None => None
  }

  function SizeOf(t: Tree): int {
    if t.Nil? then 0 else t.size
  }

  predicate RanksBelow(outRanks: Ranking, t: Tree, x: Rankable) {
    t.Node? ==> !outRanks(t.data, x)
  }

  predicate CheckNodes(outRanks: Ranking, t: Tree) {
    t.Node? ==>
      && RanksBelow(outRanks, t.left, t.data) && CheckNodes(outRanks, t.left)
      && RanksBelow(outRanks, t.right, t.data) && CheckNodes(outRanks, t.right)
      && t.size - SizeOf(t.left) - SizeOf(t.right) == 1
  }

  /* What they mean. */

  ghost function Elems(t: Tree): multiset<Rankable> {
    if t.Nil? then multiset{} else multiset{t.data} + Elems(t.left) + Elems(t.right)
  }

  // Nothing in m ranks above x.
  ghost predicate Tops(outRanks: Ranking, x: Rankable, m: multiset<Rankable>) {
    forall y :: y in m ==> !outRanks(y, x)
  }

  // Every subtree counts its elements and has none that ranks above its top.
  ghost predicate Heap(outRanks: Ranking, t: Tree) {
    t.Node? ==>
      && t.size == |Elems(t)| && Tops(outRanks, t.data, Elems(t))
      && Heap(outRanks, t.left) && Heap(outRanks, t.right)
  }

  lemma TopsTrans(outRanks: Ranking, x: Rankable, y: Rankable, m: multiset<Rankable>)
    requires StrictWeakOrder(outRanks) && !outRanks(y, x) && Tops(outRanks, y, m)
    ensures Tops(outRanks, x, m)
  {
    forall z | z in m ensures !outRanks(z, x) {
      assert Ranked(outRanks, z, y, x);
    }
  }

  lemma TopsNode(outRanks: Ranking, t: Tree)
    requires StrictWeakOrder(outRanks) && t.Node?
    ensures Tops(outRanks, t.data, Elems(t)) <==>
      Tops(outRanks, t.data, Elems(t.left)) && Tops(outRanks, t.data, Elems(t.right))
  {
    assert Ranked(outRanks, t.data, t.data, t.data);
    assert forall y :: y in Elems(t) <==> y == t.data || y in Elems(t.left) || y in Elems(t.right);
  }

  lemma TopsIffBelow(outRanks: Ranking, t: Tree, x: Rankable)
    requires StrictWeakOrder(outRanks) && Heap(outRanks, t)
    ensures RanksBelow(outRanks, t, x) <==> Tops(outRanks, x, Elems(t))
  {
    if t.Node? {
      assert t.data in Elems(t);
      if RanksBelow(outRanks, t, x) {
        TopsTrans(outRanks, x, t.data, Elems(t));
      }
    }
  }

  // The consistency check of the source looks at parent and child only; in a strict
  // weak order that is as good as looking at everything.
  lemma {:induction false} CheckNodesIsHeap(outRanks: Ranking, t: Tree)
    requires StrictWeakOrder(outRanks)
    ensures CheckNodes(outRanks, t) <==> Heap(outRanks, t)
  {
    if t.Node? {
      CheckNodesIsHeap(outRanks, t.left);
      CheckNodesIsHeap(outRanks, t.right);
      if Heap(outRanks, t.left) && Heap(outRanks, t.right) {
        TopsNode(outRanks, t);
        TopsIffBelow(outRanks, t.left, t.data);
        TopsIffBelow(outRanks, t.right, t.data);
        HeapCounts(outRanks, t);
      }
    }
  }

  lemma HeapCounts(outRanks: Ranking, t: Tree)
    requires t.Node? && Heap(outRanks, t.left) && Heap(outRanks, t.right)
    ensures |Elems(t)| == 1 + SizeOf(t.left) + SizeOf(t.right)
  {}

  function One(x: Rankable, y: Rankable): nat {
    if x == y then 1 else 0
  }

  // How often y occurs.
  function Count(t: Tree, y: Rankable): nat {
    if t.Nil? then 0 else One(t.data, y) + Count(t.left, y) + Count(t.right, y)
  }

  lemma {:induction false} CountIsElems(t: Tree, y: Rankable)
    ensures Elems(t)[y] == Count(t, y)
  {
    if t.Node? {
      CountIsElems(t.left, y);
      CountIsElems(t.right, y);
    }
  }

  lemma SameElems(a: Tree, b: Tree, x: Rankable)
    requires forall y :: Count(a, y) == Count(b, y) + One(x, y)
    ensures Elems(a) == Elems(b) + multiset{x}
  {
    forall y ensures Elems(a)[y] == (Elems(b) + multiset{x})[y] {
      CountIsElems(a, y);
      CountIsElems(b, y);
    }
  }

  lemma {:induction false} PushCount(outRanks: Ranking, t: Tree, x: Rankable, y: Rankable)
    ensures Count(Push(outRanks, t, x), y) == Count(t, y) + One(x, y)
    ensures SizeOf(Push(outRanks, t, x)) == SizeOf(t) + 1
  {
    if t.Node? {
      var rest := if outRanks(x, t.data) then t.data else x;
      PushCount(outRanks, if GoesLeft(t.left, t.right) then t.left else t.right, rest, y);
    }
  }

  lemma PushElems(outRanks: Ranking, t: Tree, x: Rankable)
    ensures Elems(Push(outRanks, t, x)) == Elems(t) + multiset{x}
    ensures SizeOf(Push(outRanks, t, x)) == SizeOf(t) + 1
  {
    forall y ensures Count(Push(outRanks, t, x), y) == Count(t, y) + One(x, y) {
      PushCount(outRanks, t, x, y);
    }
    SameElems(Push(outRanks, t, x), t, x);
    PushCount(outRanks, t, x, x);
  }

  lemma PushBelow(outRanks: Ranking, t: Tree, x: Rankable, y: Rankable)
    requires RanksBelow(outRanks, t, y) && !outRanks(x, y)
    ensures RanksBelow(outRanks, Push(outRanks, t, x), y)
  {}

  lemma BelowHigher(outRanks: Ranking, t: Tree, x: Rankable, y: Rankable)
    requires StrictWeakOrder(outRanks) && RanksBelow(outRanks, t, x) && !outRanks(x, y)
    ensures RanksBelow(outRanks, t, y)
  {
    if t.Node? {
      assert Ranked(outRanks, t.data, x, y);
    }
  }

  lemma {:induction false} PushKeepsOrder(outRanks: Ranking, t: Tree, x: Rankable)
    requires StrictWeakOrder(outRanks) && CheckNodes(outRanks, t)
    ensures CheckNodes(outRanks, Push(outRanks, t, x))
  {
    if t.Node? {
      var (top, rest) := if outRanks(x, t.data) then (x, t.data) else (t.data, x);
      assert Ranked(outRanks, x, t.data, x) && Ranked(outRanks, t.data, x, t.data);
      BelowHigher(outRanks, t.left, t.data, top);
      BelowHigher(outRanks, t.right, t.data, top);
      var under := if GoesLeft(t.left, t.right) then t.left else t.right;
      PushKeepsOrder(outRanks, under, rest);
      PushCount(outRanks, under, rest, rest);
      PushBelow(outRanks, under, rest, top);
    }
  }

  lemma {:induction false} PopCount(outRanks: Ranking, t: Tree, y: Rankable)
    requires t.Node?
    ensures Count(t, y) == Count(Pop(outRanks, t), y) + One(t.data, y)
  {
    if t.left.Node? || t.right.Node? {
      PopCount(outRanks, if TakesLeft(outRanks, t.left, t.right) then t.left else t.right, y);
    }
  }

  lemma PopElems(outRanks: Ranking, t: Tree)
    requires t.Node?
    ensures Elems(t) == Elems(Pop(outRanks, t)) + multiset{t.data}
  {
    forall y ensures Count(t, y) == Count(Pop(outRanks, t), y) + One(t.data, y) {
      PopCount(outRanks, t, y);
    }
    SameElems(t, Pop(outRanks, t), t.data);
  }

  lemma PopSize(outRanks: Ranking, t: Tree)
    requires t.Node? && CheckNodes(outRanks, t)
    ensures SizeOf(Pop(outRanks, t)) == t.size - 1
  {}

  // The higher child takes the place of the top.
  lemma PopBelow(outRanks: Ranking, t: Tree, y: Rankable)
    requires t.Node? && CheckNodes(outRanks, t) && RanksBelow(outRanks, t, y)
    requires StrictWeakOrder(outRanks)
    ensures RanksBelow(outRanks, Pop(outRanks, t), y)
  {
    BelowHigher(outRanks, t.left, t.data, y);
    BelowHigher(outRanks, t.right, t.data, y);
  }

  lemma {:induction false} PopKeepsOrder(outRanks: Ranking, t: Tree)
    requires StrictWeakOrder(outRanks) && CheckNodes(outRanks, t) && t.Node?
    ensures CheckNodes(outRanks, Pop(outRanks, t))
  {
    if t.left.Node? || t.right.Node? {
      var (next, other) := if TakesLeft(outRanks, t.left, t.right) then (t.left, t.right) else (t.right, t.left);
      PopKeepsOrder(outRanks, next);
      PopSize(outRanks, next);
      assert Ranked(outRanks, next.data, next.data, next.data);
      PopBelow(outRanks, next, next.data);
      if other.Node? {
        assert Ranked(outRanks, next.data, other.data, next.data);
      }
    }
  }

  // The prune by rank never hides an element.
  lemma {:induction false} RemoveFinds(outRanks: Ranking, t: Tree, x: Rankable)
    requires StrictWeakOrder(outRanks) && CheckNodes(outRanks, t)
    ensures Remove(outRanks, t, x).Some? <==> x in Elems(t)
  {
    if t.Node? {
      CheckNodesIsHeap(outRanks, t);
      RemoveFinds(outRanks, t.left, x);
      RemoveFinds(outRanks, t.right, x);
      assert x in Elems(t) <==> x == t.data || x in Elems(t.left) || x in Elems(t.right);
    }
  }

  lemma {:induction false} RemoveCount(outRanks: Ranking, t: Tree, x: Rankable, y: Rankable)
    requires Remove(outRanks, t, x).Some?
    ensures Count(t, y) == Count(Remove(outRanks, t, x).value, y) + One(x, y)
  {
    if t.data == x {
      PopCount(outRanks, t, y);
    } else if Remove(outRanks, t.left, x).Some? {
      RemoveCount(outRanks, t.left, x, y);
    } else {
      RemoveCount(outRanks, t.right, x, y);
    }
  }

  lemma RemoveElems(outRanks: Ranking, t: Tree, x: Rankable)
    requires Remove(outRanks, t, x).Some?
    ensures Elems(t) == Elems(Remove(outRanks, t, x).value) + multiset{x}
  {
    forall y ensures Count(t, y) == Count(Remove(outRanks, t, x).value, y) + One(x, y) {
      RemoveCount(outRanks, t, x, y);
    }
    SameElems(t, Remove(outRanks, t, x).value, x);
  }

  lemma RemoveSize(outRanks: Ranking, t: Tree, x: Rankable)
    requires CheckNodes(outRanks, t)
    ensures Remove(outRanks, t, x).Some? ==> SizeOf(Remove(outRanks, t, x).value) == SizeOf(t) - 1
  {
    if t.Node? {
      PopSize(outRanks, t);
    }
  }

  lemma RemoveBelow(outRanks: Ranking, t: Tree, x: Rankable, y: Rankable)
    requires StrictWeakOrder(outRanks) && CheckNodes(outRanks, t) && RanksBelow(outRanks, t, y)
    ensures Remove(outRanks, t, x).Some? ==> RanksBelow(outRanks, Remove(outRanks, t, x).value, y)
  {
    if t.Node? {
      PopBelow(outRanks, t, y);
    }
  }

  lemma {:induction false} RemoveKeepsOrder(outRanks: Ranking, t: Tree, x: Rankable)
    requires StrictWeakOrder(outRanks) && CheckNodes(outRanks, t)
    ensures Remove(outRanks, t, x).Some? ==> CheckNodes(outRanks, Remove(outRanks, t, x).value)
  {
    if t.Node? {
      if t.data == x {
        PopKeepsOrder(outRanks, t);
      } else {
        RemoveKeepsOrder(outRanks, t.left, x);
        RemoveSize(outRanks, t.left, x);
        RemoveBelow(outRanks, t.left, x, t.data);
        RemoveKeepsOrder(outRanks, t.right, x);
        RemoveSize(outRanks, t.right, x);
        RemoveBelow(outRanks, t.right, x, t.data);
      }
    }
  }

  /* Whole runs. */

  datatype Op = PushOp(x: Rankable) | PeekOp | PopOp | RemoveOp(x: Rankable)

  // LocHeap::push, peek, pop and remove: the new tree and the pointer returned.
  function Apply(outRanks: Ranking, t: Tree, op: Op): (Tree, Option<Rankable>) {
    match op
    case PushOp(x) => (Push(outRanks, t, x), None)
    case PeekOp => (t, if t.Nil? then None else Some(t.data))
    case PopOp => if t.Nil? then (Nil, None) else (Pop(outRanks, t), Some(t.data))
    case RemoveOp(x) =>
      match Remove(outRanks, t, x)
      case Some(t') => (t', Some(x))
      case None => (t, None)
  }

  function Run(outRanks: Ranking, t: Tree, ops: seq<Op>): (Tree, seq<Option<Rankable>>)
    decreases ops
  {
    if ops == [] then (t, [])
    else
      var (t', out) := Apply(outRanks, t, ops[0]);
      var (end, outs) := Run(outRanks, t', ops[1..]);
      (end, [out] + outs)
  }

  // A bag of elements taking the same operations: what may be returned and what the
  // bag then holds.
  ghost predicate BagStep(outRanks: Ranking, m: multiset<Rankable>, op: Op, out: Option<Rankable>,
                          m': multiset<Rankable>) {
    match op
    case PushOp(x) => out == None && m' == m + multiset{x}
    case PeekOp =>
      && m' == m
      && if m == multiset{} then out == None else out.Some? && out.value in m && Tops(outRanks, out.value, m)
    case PopOp =>
      if m == multiset{} then out == None && m' == m
      else out.Some? && out.value in m && Tops(outRanks, out.value, m) && m' == m - multiset{out.value}
    case RemoveOp(x) =>
      if x in m then out == Some(x) && m' == m - multiset{x} else out == None && m' == m
  }

  ghost predicate BagRun(outRanks: Ranking, m: multiset<Rankable>, ops: seq<Op>, outs: seq<Option<Rankable>>,
                         end: multiset<Rankable>)
    decreases ops
  {
    if ops == [] then outs == [] && end == m
    else
      && |outs| > 0
      && exists m' :: BagStep(outRanks, m, ops[0], outs[0], m') && BagRun(outRanks, m', ops[1..], outs[1..], end)
  }

  lemma ApplyRefinesBag(outRanks: Ranking, t: Tree, op: Op)
    requires StrictWeakOrder(outRanks) && CheckNodes(outRanks, t)
    ensures CheckNodes(outRanks, Apply(outRanks, t, op).0)
    ensures BagStep(outRanks, Elems(t), op, Apply(outRanks, t, op).1, Elems(Apply(outRanks, t, op).0))
  {
    match op
    case PushOp(x) =>
      PushElems(outRanks, t, x);
      PushKeepsOrder(outRanks, t, x);
    case PeekOp =>
      PeekRefinesBag(outRanks, t);
    case PopOp =>
      PopRefinesBag(outRanks, t);
    case RemoveOp(x) =>
      RemoveFinds(outRanks, t, x);
      RemoveKeepsOrder(outRanks, t, x);
      if x in Elems(t) {
        RemoveElems(outRanks, t, x);
      }
  }

  lemma PeekRefinesBag(outRanks: Ranking, t: Tree)
    requires StrictWeakOrder(outRanks) && CheckNodes(outRanks, t)
    ensures BagStep(outRanks, Elems(t), PeekOp, Apply(outRanks, t, PeekOp).1, Elems(t))
  {
    if t.Node? {
      CheckNodesIsHeap(outRanks, t);
      assert t.data in Elems(t);
    }
  }

  lemma PopRefinesBag(outRanks: Ranking, t: Tree)
    requires StrictWeakOrder(outRanks) && CheckNodes(outRanks, t)
    ensures CheckNodes(outRanks, Apply(outRanks, t, PopOp).0)
    ensures BagStep(outRanks, Elems(t), PopOp, Apply(outRanks, t, PopOp).1, Elems(Apply(outRanks, t, PopOp).0))
  {
    if t.Node? {
      PopElems(outRanks, t);
      PopKeepsOrder(outRanks, t);
      CheckNodesIsHeap(outRanks, t);
    }
  }

  // Every sequence of operations behaves like the bag, and the tree is consistent at
  // the end (hence, for every prefix, throughout).
  lemma {:induction false} RunRefinesBag(outRanks: Ranking, t: Tree, ops: seq<Op>)
    requires StrictWeakOrder(outRanks) && CheckNodes(outRanks, t)
    ensures var (end, outs) := Run(outRanks, t, ops);
      && CheckNodes(outRanks, end) && SizeOf(end) == |Elems(end)|
      && BagRun(outRanks, Elems(t), ops, outs, Elems(end))
    decreases ops
  {
    if ops == [] {
      CheckNodesIsHeap(outRanks, t);
    } else {
      var (t', out) := Apply(outRanks, t, ops[0]);
      ApplyRefinesBag(outRanks, t, ops[0]);
      RunRefinesBag(outRanks, t', ops[1..]);
      var (end, outs) := Run(outRanks, t, ops);
      assert outs[1..] == Run(outRanks, t', ops[1..]).1;
    }
  }

  // The elements in the order in which pop hands them out.
  function Drain(outRanks: Ranking, t: Tree): seq<Rankable>
    decreases |Elems(t)|
  {
    if t.Nil? then [] else
      PopElems(outRanks, t);
      [t.data] + Drain(outRanks, Pop(outRanks, t))
  }

  lemma {:induction false} DrainElems(outRanks: Ranking, t: Tree)
    ensures multiset(Drain(outRanks, t)) == Elems(t)
    decreases |Elems(t)|
  {
    if t.Node? {
      PopElems(outRanks, t);
      DrainElems(outRanks, Pop(outRanks, t));
    }
  }

  lemma {:induction false} DrainSorts(outRanks: Ranking, t: Tree)
    requires StrictWeakOrder(outRanks) && CheckNodes(outRanks, t)
    ensures forall i, j :: 0 <= i < j < |Drain(outRanks, t)| ==> !outRanks(Drain(outRanks, t)[j], Drain(outRanks, t)[i])
    decreases |Elems(t)|
  {
    if t.Node? {
      PopElems(outRanks, t);
      PopKeepsOrder(outRanks, t);
      DrainSorts(outRanks, Pop(outRanks, t));
      var rest := Drain(outRanks, Pop(outRanks, t));
      forall j | 0 <= j < |rest| ensures !outRanks(rest[j], t.data) {
        DrainedBelow(outRanks, t, rest[j]);
      }
    }
  }

  lemma RootTops(outRanks: Ranking, t: Tree)
    requires StrictWeakOrder(outRanks) && CheckNodes(outRanks, t) && t.Node?
    ensures Tops(outRanks, t.data, Elems(t))
  {
    CheckNodesIsHeap(outRanks, t);
  }

  lemma DrainedBelow(outRanks: Ranking, t: Tree, x: Rankable)
    requires StrictWeakOrder(outRanks) && CheckNodes(outRanks, t) && t.Node? && x in Drain(outRanks, Pop(outRanks, t))
    ensures !outRanks(x, t.data)
  {
    RootTops(outRanks, t);
    DrainedFromRest(outRanks, t, x);
  }

  lemma DrainedFromRest(outRanks: Ranking, t: Tree, x: Rankable)
    requires t.Node? && x in Drain(outRanks, Pop(outRanks, t))
    ensures x in Elems(t)
  {
    DrainElems(outRanks, Pop(outRanks, t));
    assert x in multiset(Drain(outRanks, Pop(outRanks, t)));
    PopElems(outRanks, t);
  }

  /* Pushes alone keep the tree balanced. */

  function PushAll(outRanks: Ranking, xs: seq<Rankable>): Tree {
    if xs == [] then Nil else Push(outRanks, PushAll(outRanks, xs[..|xs| - 1]), xs[|xs| - 1])
  }

  function Height(t: Tree): nat {
    if t.Nil? then 0 else 1 + if Height(t.left) >= Height(t.right) then Height(t.left) else Height(t.right)
  }

  // The number of binary digits of n, which for n > 0 is floor(log2 n) + 1.
  function Digits(n: nat): nat {
    if n == 0 then 0 else 1 + Digits(n / 2)
  }

  ghost predicate Balanced(t: Tree) {
    t.Node? ==>
      && 0 <= SizeOf(t.left) - SizeOf(t.right) <= 1
      && t.size == 1 + SizeOf(t.left) + SizeOf(t.right) && SizeOf(t.right) >= 0
      && (t.left.Nil? <==> SizeOf(t.left) == 0) && (t.right.Nil? <==> SizeOf(t.right) == 0)
      && Balanced(t.left) && Balanced(t.right)
  }

  lemma {:induction false} PushBalanced(outRanks: Ranking, t: Tree, x: Rankable)
    requires Balanced(t)
    ensures Balanced(Push(outRanks, t, x))
  {
    if t.Node? {
      var rest := if outRanks(x, t.data) then t.data else x;
      var under := if GoesLeft(t.left, t.right) then t.left else t.right;
      PushBalanced(outRanks, under, rest);
      PushCount(outRanks, under, rest, rest);
    }
  }

  lemma {:induction false} DigitsMonotone(m: nat, n: nat)
    requires m <= n
    ensures Digits(m) <= Digits(n)
  {
    if m > 0 {
      DigitsMonotone(m / 2, n / 2);
    }
  }

  lemma {:induction false} BalancedHeight(t: Tree)
    requires Balanced(t)
    ensures SizeOf(t) >= 0 && Height(t) == Digits(SizeOf(t))
  {
    if t.Node? {
      BalancedHeight(t.left);
      BalancedHeight(t.right);
      DigitsMonotone(SizeOf(t.right), SizeOf(t.left));
      assert t.size / 2 == SizeOf(t.left);
    }
  }

  lemma {:induction false} PushAllHeight(outRanks: Ranking, xs: seq<Rankable>)
    ensures Balanced(PushAll(outRanks, xs)) && SizeOf(PushAll(outRanks, xs)) == |xs|
    ensures Height(PushAll(outRanks, xs)) == Digits(|xs|)
  {
    if xs != [] {
      var before := xs[..|xs| - 1];
      PushAllHeight(outRanks, before);
      PushBalanced(outRanks, PushAll(outRanks, before), xs[|xs| - 1]);
      PushCount(outRanks, PushAll(outRanks, before), xs[|xs| - 1], 0);
    }
    BalancedHeight(PushAll(outRanks, xs));
  }
}
