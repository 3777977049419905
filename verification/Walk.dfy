/** The explicit-stack tree walk (src/acp/index/languages.py `walk`). */
module Walk {
  datatype Node = Node(kind: string, children: seq<Node>)

  /** The reference: a node, then its subtrees from left to right. */
  function Preorder(n: Node): seq<Node> {
    [n] + PreorderAll(n.children)
  }

  function PreorderAll(nodes: seq<Node>): seq<Node> {
    if nodes == [] then [] else Preorder(nodes[0]) + PreorderAll(nodes[1..])
  }

  function Size(n: Node): nat {
    1 + SizeAll(n.children)
  }

  function SizeAll(nodes: seq<Node>): nat {
    if nodes == [] then 0 else Size(nodes[0]) + SizeAll(nodes[1..])
  }

  function Reversed(nodes: seq<Node>): seq<Node> {
    if nodes == [] then [] else Reversed(nodes[1..]) + [nodes[0]]
  }

  /** What a stack still has to yield: its top is its last element. */
  function Pending(stack: seq<Node>): seq<Node> {
    if stack == [] then [] else Preorder(stack[|stack| - 1]) + Pending(stack[..|stack| - 1])
  }

  /** Pushing the children reversed makes them pop from left to right. */
  lemma {:induction false} PendingOfPush(stack: seq<Node>, nodes: seq<Node>)
    ensures Pending(stack + Reversed(nodes)) == PreorderAll(nodes) + Pending(stack)
  {
    if nodes == [] {
      assert stack + Reversed(nodes) == stack;
    } else {
      var rest := stack + Reversed(nodes[1..]);
      assert stack + Reversed(nodes) == rest + [nodes[0]];
      assert (rest + [nodes[0]])[..|rest|] == rest;
      PendingOfPush(stack, nodes[1..]);
      assert Preorder(nodes[0]) + (PreorderAll(nodes[1..]) + Pending(stack)) == PreorderAll(nodes) + Pending(stack);
    }
  }

  lemma {:induction false} SizeOfPush(stack: seq<Node>, nodes: seq<Node>)
    ensures SizeAll(stack + Reversed(nodes)) == SizeAll(stack) + SizeAll(nodes)
  {
    if nodes == [] {
      assert stack + Reversed(nodes) == stack;
    } else {
      var rest := stack + Reversed(nodes[1..]);
      assert stack + Reversed(nodes) == rest + [nodes[0]];
      SizeAppend(rest, nodes[0]);
      SizeOfPush(stack, nodes[1..]);
    }
  }

  lemma {:induction false} SizeAppend(nodes: seq<Node>, n: Node)
    ensures SizeAll(nodes + [n]) == SizeAll(nodes) + Size(n)
  {
    if nodes == [] {
      assert ([] + [n])[1..] == [];
    } else {
      assert (nodes + [n])[1..] == nodes[1..] + [n];
      SizeAppend(nodes[1..], n);
    }
  }

  lemma PopSplits(stack: seq<Node>)
    requires stack != []
    ensures var rest, top := stack[..|stack| - 1], stack[|stack| - 1];
            Pending(stack) == [top] + (PreorderAll(top.children) + Pending(rest))
            && SizeAll(stack) == SizeAll(rest) + 1 + SizeAll(top.children)
  {
    var rest, top := stack[..|stack| - 1], stack[|stack| - 1];
    assert stack == rest + [top];
    SizeAppend(rest, top);
  }

  /** The yielded sequence is exactly the recursive preorder. */
  method WalkTree(root: Node) returns (yielded: seq<Node>)
    ensures yielded == Preorder(root)
  {
    var stack := [root];
    yielded := [];
    assert stack[..0] == [];
    while stack != []
      invariant yielded + Pending(stack) == Preorder(root)
      decreases SizeAll(stack)
    {
      PopSplits(stack);
      var n := stack[|stack| - 1];
      stack := stack[..|stack| - 1];
      yielded := yielded + [n];
      PendingOfPush(stack, n.children);
      SizeOfPush(stack, n.children);
      stack := stack + Reversed(n.children);
    }
  }

  // ---------------------------------------------------------------------------------------------
  // Every position of the tree is visited, once, in document order

  /** A position: the child taken at each level on the way down. */
  type Position = seq<nat>

  predicate IsPosition(n: Node, p: Position)
    decreases p
  {
    p != [] ==> p[0] < |n.children| && IsPosition(n.children[p[0]], p[1..])
  }

  function NodeAt(n: Node, p: Position): Node
    requires IsPosition(n, p)
    decreases p
  {
    if p == [] then n else NodeAt(n.children[p[0]], p[1..])
  }

  /** Document order: an ancestor first, otherwise the one that turns left where the two part. */
  predicate Before(p: Position, q: Position) {
    q != [] && (p == [] || p[0] < q[0] || (p[0] == q[0] && Before(p[1..], q[1..])))
  }

  function Under(i: nat, positions: seq<Position>): seq<Position> {
    seq(|positions|, k requires 0 <= k < |positions| => [i] + positions[k])
  }

  function Positions(n: Node): seq<Position>
    decreases n
  {
    [[]] + PositionsAll(n.children, 0)
  }

  /** The positions in a list of siblings, the first of which is child number `at`. */
  function PositionsAll(nodes: seq<Node>, at: nat): seq<Position>
    decreases nodes
  {
    if nodes == [] then [] else Under(at, Positions(nodes[0])) + PositionsAll(nodes[1..], at + 1)
  }

  predicate IsPositionIn(nodes: seq<Node>, at: nat, p: Position) {
    p != [] && at <= p[0] < at + |nodes| && IsPosition(nodes[p[0] - at], p[1..])
  }

  lemma {:induction false} PositionsMatch(n: Node)
    ensures |Positions(n)| == |Preorder(n)|
    ensures forall k :: 0 <= k < |Preorder(n)| ==>
                          IsPosition(n, Positions(n)[k]) && NodeAt(n, Positions(n)[k]) == Preorder(n)[k]
    decreases n
  {
    PositionsMatchAll(n.children, 0);
    forall k | 0 < k < |Preorder(n)|
      ensures IsPosition(n, Positions(n)[k]) && NodeAt(n, Positions(n)[k]) == Preorder(n)[k]
    {
      assert LeadsTo(n.children, 0, PositionsAll(n.children, 0)[k - 1], PreorderAll(n.children)[k - 1]);
    }
  }

  lemma {:induction false} PositionsMatchAll(nodes: seq<Node>, at: nat)
    ensures |PositionsAll(nodes, at)| == |PreorderAll(nodes)|
    ensures forall k :: 0 <= k < |PreorderAll(nodes)| ==>
                          LeadsTo(nodes, at, PositionsAll(nodes, at)[k], PreorderAll(nodes)[k])
    decreases nodes
  {
    if nodes != [] {
      PositionsMatch(nodes[0]);
      PositionsMatchAll(nodes[1..], at + 1);
      var positions, rest, m := Positions(nodes[0]), PositionsAll(nodes[1..], at + 1), |Preorder(nodes[0])|;
      forall k | 0 <= k < |PreorderAll(nodes)|
        ensures LeadsTo(nodes, at, PositionsAll(nodes, at)[k], PreorderAll(nodes)[k])
      {
        if k < m {
          LeadsInFirst(nodes, at, positions[k], Preorder(nodes[0])[k]);
        } else {
          LeadsInRest(nodes, at, rest[k - m], PreorderAll(nodes[1..])[k - m]);
        }
      }
    }
  }

  predicate LeadsTo(nodes: seq<Node>, at: nat, p: Position, n: Node) {
    IsPositionIn(nodes, at, p) && NodeAt(nodes[p[0] - at], p[1..]) == n
  }

  lemma LeadsInFirst(nodes: seq<Node>, at: nat, p: Position, n: Node)
    requires nodes != [] && IsPosition(nodes[0], p) && NodeAt(nodes[0], p) == n
    ensures LeadsTo(nodes, at, [at] + p, n)
  {
    assert ([at] + p)[1..] == p;
  }

  lemma LeadsInRest(nodes: seq<Node>, at: nat, p: Position, n: Node)
    requires nodes != [] && LeadsTo(nodes[1..], at + 1, p, n)
    ensures LeadsTo(nodes, at, p, n)
  {
  }

  lemma {:induction false} EveryPositionIsListed(n: Node, p: Position)
    requires IsPosition(n, p)
    ensures p in Positions(n)
    decreases p, 0
  {
    if p == [] {
      assert Positions(n)[0] == p;
    } else {
      IsListedAmong(n.children, 0, p);
    }
  }

  lemma {:induction false} IsListedAmong(nodes: seq<Node>, at: nat, p: Position)
    requires IsPositionIn(nodes, at, p)
    ensures p in PositionsAll(nodes, at)
    decreases p[1..], |nodes| + 1
  {
    if p[0] == at {
      EveryPositionIsListed(nodes[0], p[1..]);
      var k :| 0 <= k < |Positions(nodes[0])| && Positions(nodes[0])[k] == p[1..];
      assert Under(at, Positions(nodes[0]))[k] == p;
    } else {
      IsListedAmong(nodes[1..], at + 1, p);
    }
  }

  ghost predicate InDocumentOrder(positions: seq<Position>) {
    forall j, k :: 0 <= j < k < |positions| ==> Before(positions[j], positions[k])
  }

  lemma {:induction false} PositionsAscend(n: Node)
    ensures InDocumentOrder(Positions(n))
    decreases n
  {
    PositionsAscendAll(n.children, 0);
    PositionsMatchAll(n.children, 0);
  }

  lemma {:induction false} PositionsAscendAll(nodes: seq<Node>, at: nat)
    ensures InDocumentOrder(PositionsAll(nodes, at))
    decreases nodes
  {
    if nodes != [] {
      PositionsAscend(nodes[0]);
      PositionsAscendAll(nodes[1..], at + 1);
      PositionsMatchAll(nodes[1..], at + 1);
      var first, rest := Under(at, Positions(nodes[0])), PositionsAll(nodes[1..], at + 1);
      forall j, k | 0 <= j < k < |first + rest|
        ensures Before((first + rest)[j], (first + rest)[k])
      {
        if k < |first| {
          assert Before(Positions(nodes[0])[j], Positions(nodes[0])[k]);
        } else if j < |first| {
          assert LeadsTo(nodes[1..], at + 1, rest[k - |first|], PreorderAll(nodes[1..])[k - |first|]);
        }
      }
    }
  }

  /** The walk goes through all positions of the tree, each once and in document order, and yields the node there. */
  lemma PreorderVisitsAll(n: Node)
    ensures |Preorder(n)| == |Positions(n)|
    ensures forall k :: 0 <= k < |Positions(n)| ==>
                          IsPosition(n, Positions(n)[k]) && Preorder(n)[k] == NodeAt(n, Positions(n)[k])
    ensures forall p :: IsPosition(n, p) ==> p in Positions(n)
    ensures forall j, k :: 0 <= j < k < |Positions(n)| ==>
                             Before(Positions(n)[j], Positions(n)[k]) && Positions(n)[j] != Positions(n)[k]
  {
    PositionsMatch(n);
    PositionsAscend(n);
    forall p | IsPosition(n, p)
      ensures p in Positions(n)
    {
      EveryPositionIsListed(n, p);
    }
    forall j, k | 0 <= j < k < |Positions(n)|
      ensures Before(Positions(n)[j], Positions(n)[k]) && Positions(n)[j] != Positions(n)[k]
    {
      BeforeIsStrict(Positions(n)[k]);
    }
  }

  lemma {:induction false} BeforeIsStrict(p: Position)
    ensures !Before(p, p)
  {
    if p != [] {
      BeforeIsStrict(p[1..]);
    }
  }
}
