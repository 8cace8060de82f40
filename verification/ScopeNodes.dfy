/** scripts/check_provenance_fields.py, `_scope_nodes`: the nodes of one lexical scope, by an
    explicit stack. */
module ScopeNodes {

  /** A syntax node with its children in source order. `text` stands for everything else the
      node holds. */
  datatype Node = Node(kind: NodeKind, text: string, children: seq<Node>)

  datatype NodeKind = ClassDef | FunctionDef | AsyncFunctionDef | Lambda | OtherNode

  predicate IsDefinition(n: Node) {
    !n.kind.OtherNode?
  }

  /** The number of nodes in a list of trees. */
  function TotalSize(nodes: seq<Node>): nat {
    if nodes == [] then 0 else 1 + TotalSize(nodes[0].children) + TotalSize(nodes[1..])
  }

  /** What is entered of a node: nothing of a definition. */
  function Entered(n: Node): seq<Node> {
    if IsDefinition(n) then [] else n.children
  }

  /** The nodes of a list of trees from left to right, parents first; a definition is listed
      and not entered. */
  function Preorder(nodes: seq<Node>): seq<Node>
    decreases TotalSize(nodes)
  {
    if nodes == [] then [] else [nodes[0]] + Preorder(Entered(nodes[0])) + Preorder(nodes[1..])
  }

  function Reversed(nodes: seq<Node>): (r: seq<Node>)
    ensures |r| == |nodes| && forall i :: 0 <= i < |nodes| ==> r[i] == nodes[|nodes| - 1 - i]
  {
    seq(|nodes|, i requires 0 <= i < |nodes| => nodes[|nodes| - 1 - i])
  }

  lemma {:induction false} PreorderConcat(a: seq<Node>, b: seq<Node>)
    ensures Preorder(a + b) == Preorder(a) + Preorder(b)
    ensures TotalSize(a + b) == TotalSize(a) + TotalSize(b)
  {
    if a == [] {
      assert a + b == b;
    } else {
      assert (a + b)[1..] == a[1..] + b;
      PreorderConcat(a[1..], b);
    }
  }

  /** Replacing the first of the pending trees by what is entered of it. */
  lemma PopStep(node: Node, rest: seq<Node>)
    ensures Preorder([node] + rest) == [node] + Preorder(Entered(node) + rest)
    ensures TotalSize(Entered(node) + rest) < TotalSize([node] + rest)
  {
    hide IsDefinition;
    assert ([node] + rest)[1..] == rest;
    assert Preorder([node] + rest) == [node] + Preorder(Entered(node)) + Preorder(rest);
    assert TotalSize([node] + rest) == 1 + TotalSize(node.children) + TotalSize(rest);
    hide Preorder, TotalSize;
    PreorderConcat(Entered(node), rest);
    NothingInNothing();
  }

  lemma NothingInNothing()
    ensures TotalSize([]) == 0 && Preorder([]) == []
  {
  }

  /** `_scope_nodes`; the nodes are collected in the order in which they are yielded. */
  method ScopeNodesOf(statements: seq<Node>) returns (yielded: seq<Node>)
    ensures yielded == Preorder(statements)
  {
    hide Preorder, TotalSize;
    var stack := Reversed(statements);
    yielded := [];
    assert Reversed(stack) == statements;
    NothingInNothing();
    while stack != []
      invariant yielded + Preorder(Reversed(stack)) == Preorder(statements)
      decreases TotalSize(Reversed(stack))
    {
      var node, below := stack[|stack| - 1], stack[..|stack| - 1];
      assert Reversed(stack) == [node] + Reversed(below);
      PopStep(node, Reversed(below));
      yielded := yielded + [node];
      stack := below;
      if !IsDefinition(node) {
        stack := stack + Reversed(node.children);
        assert Reversed(stack) == node.children + Reversed(below);
      } else {
        assert Reversed(stack) == [] + Reversed(below);
      }
    }
  }

  // ------------------------------------------------------------------- what the order holds

  /** The child positions that lead from a list of trees to a node without entering a class, a
      function or a lambda. */
  ghost predicate Leads(nodes: seq<Node>, path: seq<nat>, node: Node)
    decreases |path|
  {
    && path != [] && path[0] < |nodes|
    && (if |path| == 1 then nodes[path[0]] == node
        else nodes[path[0]].kind.OtherNode? && Leads(nodes[path[0]].children, path[1..], node))
  }

  ghost predicate InScope(nodes: seq<Node>, node: Node) {
    exists path :: Leads(nodes, path, node)
  }

  /** One step of the scope: the first tree, what is entered of it, and the other trees. */
  lemma InScopeStep(nodes: seq<Node>, node: Node)
    requires nodes != []
    ensures InScope(nodes, node) <==>
      node == nodes[0] || (nodes[0].kind.OtherNode? && InScope(nodes[0].children, node)) || InScope(nodes[1..], node)
  {
    if path :| Leads(nodes, path, node) {
      if path[0] > 0 {
        var shorter := [path[0] - 1] + path[1..];
        assert shorter[1..] == path[1..];
        assert Leads(nodes[1..], shorter, node);
      } else if |path| > 1 {
        assert Leads(nodes[0].children, path[1..], node);
      }
    }
    if node == nodes[0] {
      assert Leads(nodes, [0], node);
    }
    if !IsDefinition(nodes[0]) && InScope(nodes[0].children, node) {
      var path :| Leads(nodes[0].children, path, node);
      assert ([0] + path)[1..] == path;
      assert Leads(nodes, [0] + path, node);
    }
    if path :| Leads(nodes[1..], path, node) {
      var longer := [path[0] + 1] + path[1..];
      assert longer[1..] == path[1..];
      assert Leads(nodes, longer, node);
    }
  }

  /** Exactly the nodes that can be reached without entering a definition are yielded. */
  lemma {:induction false} PreorderHoldsScope(nodes: seq<Node>, node: Node)
    ensures node in Preorder(nodes) <==> InScope(nodes, node)
    decreases TotalSize(nodes)
  {
    if nodes != [] {
      InScopeStep(nodes, node);
      PreorderHoldsScope(nodes[1..], node);
      if !IsDefinition(nodes[0]) {
        PreorderHoldsScope(nodes[0].children, node);
      }
    }
  }

  /** Every parent is yielded immediately before what is entered of it. */
  lemma {:induction false} ParentsComeFirst(nodes: seq<Node>, i: nat)
    requires i < |nodes| && nodes[i].kind.OtherNode?
    ensures Preorder(nodes) ==
            Preorder(nodes[..i]) + [nodes[i]] + Preorder(nodes[i].children) + Preorder(nodes[i + 1..])
  {
    assert nodes == nodes[..i] + nodes[i..] && nodes[i..][1..] == nodes[i + 1..];
    PreorderConcat(nodes[..i], nodes[i..]);
  }
}
