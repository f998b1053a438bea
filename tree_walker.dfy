/**
 * The tree walker: visits a node through the dispatch table, then every AST
 * node held in its fields, in field order and, within an array, in index
 * order. Which fields hold nodes is given by a children function; the
 * model's own is `Ast.Children`.
 */
module BaseAstTreeWalker {
  import opened Wrappers
  import opened AstTags
  import opened Ast

  /** A children function lists only nodes structurally inside their parent. */
  ghost predicate Ranked(children: Node -> seq<Node>)
  {
    forall m: Node, i | 0 <= i < |children(m)| :: children(m)[i] < m
  }

  /** The node fields of the AST, in declaration order. */
  lemma AstChildrenRanked()
    ensures Ranked(Children)
  {
    forall m: Node, i | 0 <= i < |Children(m)|
      ensures Children(m)[i] < m
    {
      assert Children(m)[i] in Children(m);
    }
  }

  /** The nodes a walk from `n` visits, in visiting order. */
  function PreOrder(children: Node -> seq<Node>, n: Node): (r: seq<Node>)
    requires Ranked(children)
    ensures |r| >= 1 && r[0] == n
    decreases n, 1
  {
    [n] + PreOrderFrom(children, n, 0)
  }

  /** The walks of `n`'s children from the `i`-th on, one after another. */
  function PreOrderFrom(children: Node -> seq<Node>, n: Node, i: nat): seq<Node>
    requires Ranked(children)
    decreases n, 0, |children(n)| - i
  {
    if i >= |children(n)| then [] else PreOrder(children, children(n)[i]) + PreOrderFrom(children, n, i + 1)
  }

  /** `d` occurs in the tree under `n` through node-valued fields. */
  ghost predicate Reaches(children: Node -> seq<Node>, n: Node, d: Node)
    requires Ranked(children)
    decreases n
  {
    n == d || exists i | 0 <= i < |children(n)| :: Reaches(children, children(n)[i], d)
  }

  /** The walk visits exactly the nodes of the tree. */
  lemma {:induction false} PreOrderVisitsTree(children: Node -> seq<Node>, n: Node, d: Node)
    requires Ranked(children)
    ensures d in PreOrder(children, n) <==> Reaches(children, n, d)
    decreases n, 1
  {
    PreOrderFromVisits(children, n, 0, d);
  }

  lemma {:induction false} PreOrderFromVisits(children: Node -> seq<Node>, n: Node, i: nat, d: Node)
    requires Ranked(children)
    ensures d in PreOrderFrom(children, n, i) <==>
            exists j | i <= j < |children(n)| :: Reaches(children, children(n)[j], d)
    decreases n, 0, |children(n)| - i
  {
    if i < |children(n)| {
      PreOrderVisitsTree(children, children(n)[i], d);
      PreOrderFromVisits(children, n, i + 1, d);
    }
  }

  /** The number of node occurrences in the tree. */
  function Size(children: Node -> seq<Node>, n: Node): nat
    requires Ranked(children)
    decreases n, 1
  {
    1 + SizeFrom(children, n, 0)
  }

  function SizeFrom(children: Node -> seq<Node>, n: Node, i: nat): nat
    requires Ranked(children)
    decreases n, 0, |children(n)| - i
  {
    if i >= |children(n)| then 0 else Size(children, children(n)[i]) + SizeFrom(children, n, i + 1)
  }

  /** One visit per occurrence: the walk is exactly as long as the tree is large. */
  lemma {:induction false} PreOrderLength(children: Node -> seq<Node>, n: Node)
    requires Ranked(children)
    ensures |PreOrder(children, n)| == Size(children, n)
    decreases n, 1
  {
    PreOrderFromLength(children, n, 0);
  }

  lemma {:induction false} PreOrderFromLength(children: Node -> seq<Node>, n: Node, i: nat)
    requires Ranked(children)
    ensures |PreOrderFrom(children, n, i)| == SizeFrom(children, n, i)
    decreases n, 0, |children(n)| - i
  {
    if i < |children(n)| {
      PreOrderLength(children, children(n)[i]);
      PreOrderFromLength(children, n, i + 1);
    }
  }

  /** A node without children is visited alone. */
  lemma LeafOrder(children: Node -> seq<Node>, n: Node)
    requires Ranked(children)
    requires children(n) == []
    ensures PreOrder(children, n) == [n]
  {
    assert PreOrderFrom(children, n, 0) == [];
  }

  /** A node whose three children are leaves is visited before them, and they in field order. */
  lemma ThreeLeavesOrder(children: Node -> seq<Node>, n: Node, a: Node, b: Node, c: Node)
    requires Ranked(children)
    requires children(n) == [a, b, c] && children(a) == [] && children(b) == [] && children(c) == []
    ensures PreOrder(children, n) == [n, a, b, c]
  {
    LeafOrder(children, a);
    LeafOrder(children, b);
    LeafOrder(children, c);
    assert PreOrderFrom(children, n, 2) == [c];
    assert PreOrderFrom(children, n, 1) == [b, c];
  }

  /** An `if` node with all three parts is visited before its condition, then and else nodes, in that order. */
  lemma IfVisitOrder(loc: Location, c: Node, t: Node, e: Node)
    requires Children(c) == [] && Children(t) == [] && Children(e) == []
    ensures Ranked(Children)
    ensures PreOrder(Children, IfNode(loc, Some(c), Some(t), Some(e))) ==
            [IfNode(loc, Some(c), Some(t), Some(e)), c, t, e]
  {
    AstChildrenRanked();
    var n := IfNode(loc, Some(c), Some(t), Some(e));
    assert Children(n) == [c, t, e];
    ThreeLeavesOrder(Children, n, c, t, e);
  }

  /** The concatenation of the handler's effects on `ns`, in order. */
  function Effects<E>(handler: Node -> seq<E>, ns: seq<Node>): seq<E>
  {
    if |ns| == 0 then [] else handler(ns[0]) + Effects(handler, ns[1..])
  }

  lemma {:induction false} EffectsAppend<E>(handler: Node -> seq<E>, a: seq<Node>, b: seq<Node>)
    ensures Effects(handler, a + b) == Effects(handler, a) + Effects(handler, b)
  {
    if |a| > 0 {
      assert (a + b)[1..] == a[1..] + b;
      EffectsAppend(handler, a[1..], b);
    } else {
      assert a + b == b;
    }
  }

  /** The effects of the walks from the `i`-th child on: the `i`-th child's walk, then the rest. */
  lemma WalkStep<E>(children: Node -> seq<Node>, handler: Node -> seq<E>, n: Node, i: nat)
    requires Ranked(children) && i < |children(n)|
    ensures Effects(handler, PreOrderFrom(children, n, i)) ==
            Effects(handler, PreOrder(children, children(n)[i])) + Effects(handler, PreOrderFrom(children, n, i + 1))
  {
    EffectsAppend(handler, PreOrder(children, children(n)[i]), PreOrderFrom(children, n, i + 1));
  }

  /**
   * `BaseAstTreeWalker`: `handler` stands for the dispatching `visit` of the
   * base class and `output` for what the handlers leave in the compilation
   * context.
   */
  class TreeWalker<E> {
    const children: Node -> seq<Node>
    const handler: Node -> seq<E>
    var output: seq<E>

    ghost predicate Valid()
    {
      Ranked(children)
    }

    constructor(children: Node -> seq<Node>, handler: Node -> seq<E>)
      requires Ranked(children)
      ensures Valid() && this.children == children && this.handler == handler && output == []
    {
      this.children := children;
      this.handler := handler;
      output := [];
    }

    /** Runs the node's handler first, then walks the children; the walk returns nothing. */
    method Visit(n: Node)
      requires Valid()
      modifies this
      ensures output == old(output) + Effects(handler, PreOrder(children, n))
      decreases n
    {
      ghost var start := output;
      EffectsAppend(handler, [n], PreOrderFrom(children, n, 0));
      output := output + handler(n);
      var kids := children(n);
      for i := 0 to |kids|
        invariant start + Effects(handler, PreOrder(children, n)) ==
                  output + Effects(handler, PreOrderFrom(children, n, i))
      {
        WalkStep(children, handler, n, i);
        ghost var before := output;
        Visit(kids[i]);
        assert output + Effects(handler, PreOrderFrom(children, n, i + 1)) ==
               before + (Effects(handler, PreOrder(children, kids[i])) + Effects(handler, PreOrderFrom(children, n, i + 1)));
      }
    }
  }
}
