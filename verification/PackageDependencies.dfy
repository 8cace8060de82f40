/** scripts/audit_package_dependencies.py: Tarjan's strongly connected components with one
    shared index, lowlink table and stack, and the longest known dotted prefix of an import. */
module PackageDependencies {
  import opened Ordering
  import opened Graphs
  import opened Results

  // ---------------------------------------------------------------- what is to be computed

  /** A class of mutually reachable vertices with more than one member, listed in order. */
  ghost predicate NontrivialClass(g: Graph, c: seq<string>) {
    && |c| > 1
    && Ascending(StrLt, c)
    && forall x, y :: x in c ==> (y in c <==> Mutual(g, x, y))
  }

  /** All such classes, each once, in list order. At most one list satisfies this. */
  ghost predicate IsComponentListing(g: Graph, r: seq<seq<string>>) {
    && Ascending(ListLt, r)
    && forall c :: c in r <==> NontrivialClass(g, c)
  }

  lemma ComponentListingUnique(g: Graph, r1: seq<seq<string>>, r2: seq<seq<string>>)
    requires IsComponentListing(g, r1) && IsComponentListing(g, r2)
    ensures r1 == r2
  {
    ListLtStrictTotal();
    AscendingUnique(ListLt, r1, r2);
  }

  /** The listing is empty exactly when no two distinct vertices reach each other:
      self-loops alone never produce a component. */
  lemma EmptyListingIffNoProperCycle(g: Graph, r: seq<seq<string>>)
    requires IsComponentListing(g, r)
    ensures r == [] <==> forall x, y :: Mutual(g, x, y) ==> x == y
  {
    if r != [] {
      var c := r[0];
      assert c in r;
      StrLtStrictTotal();
      assert Mutual(g, c[0], c[1]) && c[0] != c[1];
    } else {
      forall x, y | Mutual(g, x, y) ensures x == y {
        if x != y {
          var c := ClassListing(g, x, y);
        }
      }
    }
  }

  lemma ClassListing(g: Graph, x: string, y: string) returns (c: seq<string>)
    requires Mutual(g, x, y) && x != y
    ensures NontrivialClass(g, c) && x in c
  {
    var cls := set z | z in Vertices(g) && Mutual(g, x, z);
    ReachStaysInVertices(g, x, y);
    ReachStaysInVertices(g, y, x);
    ReachSelf(g, x);
    StrLtStrictTotal();
    c := SortedSet(StrLt, cls);
    assert {x, y} <= cls;
    TwoElements(cls, x, y);
    forall a, b | a in c ensures b in c <==> Mutual(g, a, b) {
      if b in c {
        ReachTransitive(g, a, x, b);
        ReachTransitive(g, b, x, a);
      }
      if Mutual(g, a, b) {
        ReachTransitive(g, x, a, b);
        ReachTransitive(g, b, a, x);
        if b != x {
          ReachStaysInVertices(g, x, b);
        }
      }
    }
  }

  lemma TwoElements<T>(s: set<T>, x: T, y: T)
    requires x in s && y in s && x != y
    ensures |s| > 1
  {
    assert s == {x} + (s - {x});
    assert y in s - {x};
  }

  // ------------------------------------------------------------------------- the invariant

  /** The shared variables of the traversal, as values. The stack itself enters only through
      `StackShape`; everything else needs just which vertices are on it and their numbers. */
  datatype Snapshot = Snapshot(
    index: nat,
    indexes: map<string, nat>,
    onStack: set<string>,
    components: seq<seq<string>>)
  {
    /** Numbered and already popped. */
    ghost predicate Done(x: string) {
      x in indexes && x !in onStack
    }

    ghost predicate Numbered(g: Graph, grey: set<string>) {
      && indexes.Keys <= Vertices(g)
      && grey <= onStack <= indexes.Keys
      && forall x :: x in indexes ==> indexes[x] < index
    }
  }

  /** The stack lists the vertices on it by increasing number. */
  ghost predicate StackShape(stack: seq<string>, s: Snapshot) {
    && (forall x :: x in stack <==> x in s.onStack)
    && s.onStack <= s.indexes.Keys
    && forall i, j :: 0 <= i < j < |stack| ==> s.indexes[stack[i]] < s.indexes[stack[j]]
  }

  /** A vertex whose call has returned has no unnumbered successor. */
  ghost predicate NoEscape(g: Graph, s: Snapshot, grey: set<string>) {
    forall x, y :: x in s.indexes && x !in grey && y in Successors(g, x) ==> y in s.indexes
  }

  /** Lower stack entries reach higher ones. */
  ghost predicate Linked(g: Graph, s: Snapshot)
    requires s.onStack <= s.indexes.Keys
  {
    forall x, y {:trigger Reach(g, x, y)} ::
      x in s.onStack && y in s.onStack && s.indexes[x] <= s.indexes[y] ==> Reach(g, x, y)
  }

  /** Every stack entry reaches a grey vertex that is not above it. */
  ghost predicate Anchored(g: Graph, s: Snapshot, grey: set<string>)
    requires grey <= s.onStack <= s.indexes.Keys
  {
    forall y {:trigger AnchoredAt(g, s, grey, y)} :: y in s.onStack ==> AnchoredAt(g, s, grey, y)
  }

  ghost predicate AnchoredAt(g: Graph, s: Snapshot, grey: set<string>, y: string)
    requires grey <= s.onStack <= s.indexes.Keys && y in s.onStack
  {
    exists z :: z in grey && s.indexes[z] <= s.indexes[y] && Reach(g, y, z)
  }

  /** Popped vertices come in whole classes. */
  ghost predicate WholeClassesDone(g: Graph, s: Snapshot) {
    forall x, y :: s.Done(x) && Mutual(g, x, y) ==> s.Done(y)
  }

  /** The recorded lists are the popped classes with two or more members, each once. */
  ghost predicate ComponentsRecorded(g: Graph, s: Snapshot) {
    && (forall c :: c in s.components ==> NontrivialClass(g, c))
    && (forall c, x :: c in s.components && x in c ==> s.Done(x))
    && (forall x, y :: s.Done(x) && Mutual(g, x, y) && x != y ==> exists c :: c in s.components && x in c)
    && NoRepeats(s.components)
  }

  /** What every step of the traversal keeps. `grey` holds the vertices whose `visit` call
      has not returned yet. */
  ghost predicate Inv(g: Graph, s: Snapshot, grey: set<string>) {
    && s.Numbered(g, grey)
    && NoEscape(g, s, grey)
    && Linked(g, s)
    && Anchored(g, s, grey)
    && WholeClassesDone(g, s)
    && ComponentsRecorded(g, s)
  }

  /** The lowlink of a vertex still on the stack is the number of a stack entry it reaches. */
  ghost predicate LowWitness(g: Graph, s: Snapshot, node: string, low: nat)
    requires s.onStack <= s.indexes.Keys
  {
    exists y :: y in s.onStack && s.indexes[y] == low && Reach(g, node, y)
  }

  /** No edge from the stack entries numbered `num` or more leads to an entry numbered below
      both `num` and `low`. */
  ghost predicate LowCovers(g: Graph, s: Snapshot, num: nat, low: nat)
    requires s.onStack <= s.indexes.Keys
  {
    forall x, y :: x in s.onStack && s.indexes[x] >= num && y in Successors(g, x) && y in s.onStack &&
      s.indexes[y] < num
      ==> low <= s.indexes[y]
  }

  lemma NewestIsLast(stack: seq<string>, s: Snapshot, node: string)
    requires StackShape(stack, s) && node in s.onStack
    ensures stack != [] && stack[|stack| - 1] in s.onStack
    ensures forall y :: y in stack[..|stack| - 1] ==> s.indexes[y] < s.indexes[stack[|stack| - 1]]
  {
    assert node in stack;
    var n := |stack| - 1;
    forall y | y in stack[..n] ensures s.indexes[y] < s.indexes[stack[n]] {
      var i :| 0 <= i < n && stack[i] == y;
    }
  }

  /** Only the newest vertex is popped; everything under it has a smaller number. */
  lemma PopOne(stack: seq<string>, s: Snapshot, node: string)
    requires StackShape(stack, s) && node in s.onStack
    ensures stack != [] && stack[|stack| - 1] in s.onStack
    ensures StackShape(stack[..|stack| - 1], s.(onStack := s.onStack - {stack[|stack| - 1]}))
    ensures forall y :: y in s.onStack && y != stack[|stack| - 1] ==> s.indexes[y] < s.indexes[stack[|stack| - 1]]
  {
    NewestIsLast(stack, s, node);
    var n := |stack| - 1;
    assert stack == stack[..n] + [stack[n]];
    assert forall y :: y in stack <==> y in stack[..n] || y == stack[n];
  }

  // ------------------------------------------------------------------- entering a vertex

  function Pushed(s: Snapshot, node: string): Snapshot {
    Snapshot(s.index + 1, s.indexes[node := s.index], s.onStack + {node}, s.components)
  }

  lemma PushKeepsLinks(g: Graph, s: Snapshot, grey: set<string>, node: string)
    requires s.Numbered(g, grey) && Linked(g, s) && Anchored(g, s, grey) && node !in s.indexes
    requires forall z :: z in grey ==> Reach(g, z, node)
    ensures Linked(g, Pushed(s, node)) && Anchored(g, Pushed(s, node), grey + {node})
  {
    var t := Pushed(s, node);
    ReachSelf(g, node);
    forall x, y | x in t.onStack && y in t.onStack && t.indexes[x] <= t.indexes[y] ensures Reach(g, x, y) {
      if y == node && x != node {
        assert AnchoredAt(g, s, grey, x);
        var z :| z in grey && s.indexes[z] <= s.indexes[x] && Reach(g, x, z);
        ReachTransitive(g, x, z, node);
      }
    }
    forall y | y in t.onStack ensures AnchoredAt(g, t, grey + {node}, y) {
      if y == node {
        assert node in grey + {node};
      } else {
        assert AnchoredAt(g, s, grey, y);
        var z :| z in grey && s.indexes[z] <= s.indexes[y] && Reach(g, y, z);
        assert z in grey + {node} && t.indexes[z] == s.indexes[z];
      }
    }
  }

  lemma PushKeepsShape(stack: seq<string>, s: Snapshot, node: string)
    requires StackShape(stack, s) && node !in s.indexes
    requires forall x :: x in s.indexes ==> s.indexes[x] < s.index
    ensures StackShape(stack + [node], Pushed(s, node))
  {
    assert forall i :: 0 <= i < |stack| ==> stack[i] in s.onStack;
  }

  lemma SameDoneKeepsComponents(g: Graph, s: Snapshot, t: Snapshot)
    requires WholeClassesDone(g, s) && ComponentsRecorded(g, s)
    requires t.components == s.components && forall x :: t.Done(x) <==> s.Done(x)
    ensures WholeClassesDone(g, t) && ComponentsRecorded(g, t)
  {
  }

  lemma PushKeepsInv(g: Graph, s: Snapshot, grey: set<string>, node: string)
    requires Inv(g, s, grey) && node in Vertices(g) && node !in s.indexes
    requires forall z :: z in grey ==> Reach(g, z, node)
    ensures Inv(g, Pushed(s, node), grey + {node})
  {
    PushKeepsLinks(g, s, grey, node);
    SameDoneKeepsComponents(g, s, Pushed(s, node));
  }

  // -------------------------------------------------------------------- leaving a vertex

  /** `visit` returns with its vertex still on the stack. */
  lemma BlackenKeepsAnchors(g: Graph, s: Snapshot, grey: set<string>, node: string, low: nat)
    requires s.Numbered(g, grey + {node}) && Anchored(g, s, grey + {node}) && node !in grey
    requires LowWitness(g, s, node, low) && low < s.indexes[node]
    ensures Anchored(g, s, grey)
  {
    var w :| w in s.onStack && s.indexes[w] == low && Reach(g, node, w);
    assert AnchoredAt(g, s, grey + {node}, w);
    var zw :| zw in grey + {node} && s.indexes[zw] <= s.indexes[w] && Reach(g, w, zw);
    forall y | y in s.onStack ensures AnchoredAt(g, s, grey, y) {
      assert AnchoredAt(g, s, grey + {node}, y);
      var z :| z in grey + {node} && s.indexes[z] <= s.indexes[y] && Reach(g, y, z);
      if z == node {
        ReachTransitive(g, y, node, w);
        ReachTransitive(g, y, w, zw);
        assert zw in grey && s.indexes[zw] <= s.indexes[y];
      } else {
        assert z in grey;
      }
    }
  }

  lemma BlackenKeepsInv(g: Graph, s: Snapshot, grey: set<string>, node: string, low: nat)
    requires Inv(g, s, grey + {node}) && node !in grey
    requires forall y :: y in Successors(g, node) ==> y in s.indexes
    requires LowWitness(g, s, node, low) && low < s.indexes[node]
    ensures Inv(g, s, grey)
  {
    BlackenKeepsAnchors(g, s, grey, node, low);
  }

  /** The stack entries numbered `num` or more. */
  function Top(s: Snapshot, num: nat): set<string>
    requires s.onStack <= s.indexes.Keys
  {
    set x | x in s.onStack && s.indexes[x] >= num
  }

  lemma TopReachesNode(g: Graph, s: Snapshot, grey: set<string>, node: string, x: string)
    requires s.Numbered(g, grey + {node}) && Linked(g, s) && Anchored(g, s, grey + {node})
    requires forall z :: z in grey ==> s.indexes[z] < s.indexes[node]
    requires x in Top(s, s.indexes[node])
    ensures Mutual(g, node, x)
  {
    assert AnchoredAt(g, s, grey + {node}, x);
    var z :| z in grey + {node} && s.indexes[z] <= s.indexes[x] && Reach(g, x, z);
    assert Reach(g, z, node);
    ReachTransitive(g, x, z, node);
  }

  lemma ClassStaysInTop(g: Graph, s: Snapshot, grey: set<string>, node: string, y: string)
    requires s.Numbered(g, grey + {node}) && Linked(g, s) && Anchored(g, s, grey + {node})
    requires NoEscape(g, s, grey + {node}) && WholeClassesDone(g, s)
    requires forall z :: z in grey ==> s.indexes[z] < s.indexes[node]
    requires forall t :: t in Successors(g, node) ==> t in s.indexes
    requires LowCovers(g, s, s.indexes[node], s.indexes[node])
    requires Mutual(g, node, y)
    ensures y in Top(s, s.indexes[node])
  {
    var top := Top(s, s.indexes[node]);
    if y !in top {
      var a, b := ExitEdge(g, node, y, top);
      assert b in s.indexes;
      ReachEdge(g, a, b);
      ReachTransitive(g, node, a, b);
      ReachTransitive(g, b, y, node);
      assert Mutual(g, b, node);
      assert false;
    }
  }

  /** When the lowlink equals the vertex's own number, the stack from that vertex up is
      exactly its class. */
  lemma TopIsClass(g: Graph, s: Snapshot, grey: set<string>, node: string)
    requires Inv(g, s, grey + {node})
    requires forall z :: z in grey ==> s.indexes[z] < s.indexes[node]
    requires forall t :: t in Successors(g, node) ==> t in s.indexes
    requires LowCovers(g, s, s.indexes[node], s.indexes[node])
    ensures forall x, y :: x in Top(s, s.indexes[node]) ==> (y in Top(s, s.indexes[node]) <==> Mutual(g, x, y))
  {
    var top := Top(s, s.indexes[node]);
    forall x, y | x in top ensures y in top <==> Mutual(g, x, y) {
      TopReachesNode(g, s, grey, node, x);
      if y in top {
        TopReachesNode(g, s, grey, node, y);
        ReachTransitive(g, x, node, y);
        ReachTransitive(g, y, node, x);
      }
      if Mutual(g, x, y) {
        ReachTransitive(g, node, x, y);
        ReachTransitive(g, y, x, node);
        ClassStaysInTop(g, s, grey, node, y);
      }
    }
  }

  function Popped(s: Snapshot, num: nat, component: seq<string>): Snapshot
    requires s.onStack <= s.indexes.Keys
  {
    s.(onStack := s.onStack - Top(s, num),
       components := if |component| > 1 then s.components + [component] else s.components)
  }

  lemma PopKeepsAnchors(g: Graph, s: Snapshot, grey: set<string>, node: string, component: seq<string>)
    requires s.Numbered(g, grey + {node}) && Anchored(g, s, grey + {node})
    requires forall z :: z in grey ==> s.indexes[z] < s.indexes[node]
    ensures Popped(s, s.indexes[node], component).Numbered(g, grey)
    ensures Anchored(g, Popped(s, s.indexes[node], component), grey)
  {
    var t := Popped(s, s.indexes[node], component);
    forall y | y in t.onStack ensures AnchoredAt(g, t, grey, y) {
      assert AnchoredAt(g, s, grey + {node}, y);
      var z :| z in grey + {node} && s.indexes[z] <= s.indexes[y] && Reach(g, y, z);
      assert z in grey;
    }
  }

  lemma PopRecordsComponent(g: Graph, s: Snapshot, num: nat, component: seq<string>)
    requires s.onStack <= s.indexes.Keys
    requires WholeClassesDone(g, s) && ComponentsRecorded(g, s)
    requires forall x :: x in component <==> x in Top(s, num)
    requires Ascending(StrLt, component)
    requires forall x, y :: x in Top(s, num) ==> (y in Top(s, num) <==> Mutual(g, x, y))
    ensures WholeClassesDone(g, Popped(s, num, component)) && ComponentsRecorded(g, Popped(s, num, component))
  {
    var t := Popped(s, num, component);
    assert forall x :: t.Done(x) <==> s.Done(x) || x in Top(s, num);
    if |component| > 1 {
      assert NontrivialClass(g, component);
      assert component[0] in Top(s, num);
      forall c | c in s.components ensures c != component {
        assert component[0] !in c;
      }
    } else {
      forall x, y | x in Top(s, num) && Mutual(g, x, y) ensures x == y {
        assert x in component && y in component;
      }
    }
    forall x, y | t.Done(x) && Mutual(g, x, y) && x != y ensures exists c :: c in t.components && x in c {
      if x in Top(s, num) {
        assert x in component && y in component;
        assert component in t.components;
      } else {
        var c :| c in s.components && x in c;
        assert c in t.components;
      }
    }
  }

  /** `visit` returns after popping its vertex and everything above it. */
  lemma PopKeepsInv(g: Graph, s: Snapshot, grey: set<string>, node: string, component: seq<string>)
    requires Inv(g, s, grey + {node})
    requires forall z :: z in grey ==> s.indexes[z] < s.indexes[node]
    requires forall t :: t in Successors(g, node) ==> t in s.indexes
    requires LowCovers(g, s, s.indexes[node], s.indexes[node])
    requires Ascending(StrLt, component) && forall x :: x in component <==> x in Top(s, s.indexes[node])
    ensures Inv(g, Popped(s, s.indexes[node], component), grey)
  {
    TopIsClass(g, s, grey, node);
    PopKeepsAnchors(g, s, grey, node, component);
    PopRecordsComponent(g, s, s.indexes[node], component);
  }

  // ------------------------------------------------------------- what a call leaves alone

  /** Numbers are kept, new ones start at the old index, and no older vertex is pushed or popped. */
  ghost predicate Grown(s: Snapshot, t: Snapshot) {
    && s.index <= t.index
    && (forall x :: x in s.indexes ==> x in t.indexes && t.indexes[x] == s.indexes[x])
    && (forall x :: x in t.indexes && x !in s.indexes ==> t.indexes[x] >= s.index)
    && (forall x :: x in s.indexes ==> (x in s.onStack <==> x in t.onStack))
  }

  /** `LowCovers` for the entries strictly above number `num`. */
  ghost predicate LowCoversAbove(g: Graph, s: Snapshot, num: nat, low: nat)
    requires s.onStack <= s.indexes.Keys
  {
    forall x, y :: x in s.onStack && s.indexes[x] > num && y in Successors(g, x) && y in s.onStack && s.indexes[y] < num
      ==> low <= s.indexes[y]
  }

  function Min(a: nat, b: nat): nat {
    if b < a then b else a
  }

  /** The targets of a loop seen so far are numbered, and none lies on the stack below both
      `num` and `low`. */
  ghost predicate TargetsCovered(s: Snapshot, targets: set<string>, num: nat, low: nat) {
    && targets <= s.indexes.Keys
    && forall y :: y in targets && y in s.onStack && s.indexes[y] < num ==> low <= s.indexes[y]
  }

  lemma TargetsStayCovered(s: Snapshot, t: Snapshot, targets: set<string>, target: string, num: nat, low: nat,
                           newLow: nat)
    requires TargetsCovered(s, targets, num, low) && Grown(s, t) && newLow <= low
    requires TargetsCovered(t, {target}, num, newLow)
    ensures TargetsCovered(t, targets + {target}, num, newLow)
  {
  }

  lemma TargetIsReached(g: Graph, grey: set<string>, node: string, target: string)
    requires target in Successors(g, node) && forall z :: z in grey ==> Reach(g, z, node)
    ensures target in Vertices(g) && forall z :: z in grey + {node} ==> Reach(g, z, target)
  {
    ReachSelf(g, node);
    ReachEdge(g, node, target);
    forall z | z in grey + {node} ensures Reach(g, z, target) {
      ReachTransitive(g, z, node, target);
    }
  }

  /** A target that was visited just now. */
  lemma AfterChild(g: Graph, s: Snapshot, t: Snapshot, node: string, target: string, low: nat, childLow: nat)
    requires s.onStack <= s.indexes.Keys && t.onStack <= t.indexes.Keys
    requires Grown(s, t) && node in s.onStack && s.indexes[node] < s.index && low <= s.indexes[node]
    requires LowWitness(g, s, node, low) && LowCoversAbove(g, s, s.indexes[node], low)
    requires target in Successors(g, node) && target in t.indexes && t.indexes[target] == s.index
    requires if target in t.onStack then LowWitness(g, t, target, childLow) else childLow == s.index
    requires LowCovers(g, t, s.index, childLow)
    ensures s.indexes.Keys <= t.indexes.Keys
    ensures node in t.onStack && t.indexes[node] == s.indexes[node]
    ensures LowWitness(g, t, node, Min(low, childLow))
    ensures LowCoversAbove(g, t, s.indexes[node], Min(low, childLow))
    ensures TargetsCovered(t, {target}, s.indexes[node], Min(low, childLow))
  {
    var num, newLow := s.indexes[node], Min(low, childLow);
    forall x, y | x in t.onStack && t.indexes[x] > num && y in Successors(g, x) && y in t.onStack && t.indexes[y] < num
      ensures newLow <= t.indexes[y]
    {
      assert y in s.onStack;
      if t.indexes[x] < s.index {
        assert x in s.onStack;
      }
    }
    if target in t.onStack && childLow < low {
      var y :| y in t.onStack && t.indexes[y] == childLow && Reach(g, target, y);
      ReachEdge(g, node, target);
      ReachTransitive(g, node, target, y);
    } else {
      var y :| y in s.onStack && s.indexes[y] == low && Reach(g, node, y);
      assert y in t.onStack && t.indexes[y] == low;
    }
  }

  /** A target that is still on the stack. */
  lemma AtStackEntry(g: Graph, s: Snapshot, node: string, target: string, low: nat)
    requires s.onStack <= s.indexes.Keys && target in s.onStack && target in Successors(g, node)
    requires node in s.indexes && LowWitness(g, s, node, low) && LowCoversAbove(g, s, s.indexes[node], low)
    ensures LowWitness(g, s, node, Min(low, s.indexes[target]))
    ensures LowCoversAbove(g, s, s.indexes[node], Min(low, s.indexes[target]))
    ensures TargetsCovered(s, {target}, s.indexes[node], Min(low, s.indexes[target])) && Grown(s, s)
  {
    ReachEdge(g, node, target);
  }

  /** A target whose component was popped before. */
  lemma AtDoneTarget(g: Graph, s: Snapshot, node: string, target: string, low: nat)
    requires s.Done(target) && node in s.indexes
    ensures TargetsCovered(s, {target}, s.indexes[node], low) && Grown(s, s)
  {
  }

  function Firsts(s: seq<string>, i: nat): set<string>
    requires i <= |s|
  {
    set x | x in s[..i]
  }

  lemma FirstsStep(s: seq<string>, i: nat)
    requires i < |s|
    ensures Firsts(s, i + 1) == Firsts(s, i) + {s[i]}
  {
    assert s[..i + 1] == s[..i] + [s[i]];
  }

  lemma GrownReflexive(s: Snapshot)
    ensures Grown(s, s)
  {
  }

  lemma GrownTransitive(s: Snapshot, t: Snapshot, u: Snapshot)
    requires Grown(s, t) && Grown(t, u)
    ensures Grown(s, u)
  {
  }

  lemma GrownFacts(s: Snapshot, t: Snapshot, num: nat)
    requires Grown(s, t) && forall x :: x in s.indexes ==> s.indexes[x] < num
    ensures forall x :: x in s.indexes ==> x in t.indexes && t.indexes[x] == s.indexes[x] < num
  {
  }

  lemma PoppedGrown(s: Snapshot, t: Snapshot, u: Snapshot, num: nat)
    requires Grown(s, t) && t.onStack <= t.indexes.Keys
    requires forall x :: x in s.indexes ==> s.indexes[x] < num
    requires u.index == t.index && u.indexes == t.indexes
    requires u.onStack == t.onStack || u.onStack == t.onStack - Top(t, num)
    ensures Grown(s, u)
  {
  }

  lemma NodeCovers(g: Graph, stack: seq<string>, s: Snapshot, node: string, low: nat)
    requires StackShape(stack, s) && node in s.onStack
    requires LowCoversAbove(g, s, s.indexes[node], low)
    requires TargetsCovered(s, Successors(g, node), s.indexes[node], low)
    ensures LowCovers(g, s, s.indexes[node], low)
  {
    forall x | x in s.onStack && s.indexes[x] == s.indexes[node] ensures x == node {
      assert x in stack && node in stack;
    }
  }

  lemma EnteredVertex(g: Graph, s: Snapshot, grey: set<string>, node: string)
    requires s.Numbered(g, grey) && node !in s.indexes
    ensures Grown(s, Pushed(s, node))
    ensures LowWitness(g, Pushed(s, node), node, s.index)
    ensures LowCoversAbove(g, Pushed(s, node), s.index, s.index)
    ensures TargetsCovered(Pushed(s, node), {}, s.index, s.index)
  {
    ReachSelf(g, node);
  }

  // ------------------------------------------------------------------------- the algorithm

  /** The variables that the nested function `visit` shares with its enclosing function. */
  class ComponentSearch {
    const graph: Graph
    var index: nat
    var indexes: map<string, nat>
    var lowlinks: map<string, nat>
    var stack: seq<string>
    var onStack: set<string>
    var components: seq<seq<string>>

    ghost function Now(): Snapshot
      reads this
    {
      Snapshot(index, indexes, onStack, components)
    }

    ghost predicate Valid(grey: set<string>)
      reads this
    {
      && Inv(graph, Now(), grey)
      && StackShape(stack, Now())
      && lowlinks.Keys == indexes.Keys
    }

    constructor (graph: Graph)
      ensures Valid({}) && this.graph == graph && indexes == map[]
    {
      this.graph := graph;
      index, indexes, lowlinks := 0, map[], map[];
      stack, onStack, components := [], {}, [];
    }

    method Enter(node: string, ghost grey: set<string>)
      requires Valid(grey) && node in Vertices(graph) && node !in indexes
      requires forall z :: z in grey ==> Reach(graph, z, node)
      modifies this
      ensures Valid(grey + {node}) && Now() == Pushed(old(Now()), node)
      ensures lowlinks == old(lowlinks)[node := old(index)] && stack == old(stack) + [node]
    {
      hide Reach, Mutual, StackShape, Successors, Vertices;
      hide NoEscape, Linked, Anchored, WholeClassesDone, ComponentsRecorded;
      PushKeepsInv(graph, Now(), grey, node);
      PushKeepsShape(stack, Now(), node);
      indexes := indexes[node := index];
      lowlinks := lowlinks[node := index];
      index := index + 1;
      stack := stack + [node];
      onStack := onStack + {node};
    }

    /** Pops the stack down to and including `node`. */
    method PopThrough(node: string) returns (component: seq<string>)
      requires StackShape(stack, Now()) && node in onStack
      modifies this`stack, this`onStack
      ensures onStack == old(onStack) - Top(old(Now()), indexes[node]) && StackShape(stack, Now())
      ensures NoRepeats(component) && forall x :: x in component <==> x in Top(old(Now()), indexes[node])
      ensures stack <= old(stack)
    {
      component := [];
      ghost var before := Now();
      while true
        invariant StackShape(stack, Now()) && stack <= old(stack) && node in onStack
        invariant forall x :: x in before.onStack <==> x in onStack || x in component
        invariant forall x :: x in component ==> x !in onStack && indexes[x] > indexes[node]
        invariant forall x, y :: x in component && y in onStack ==> indexes[y] < indexes[x]
        invariant NoRepeats(component)
        decreases |stack|
      {
        hide StackShape;
        PopOne(stack, Now(), node);
        var selected := stack[|stack| - 1];
        assert selected in onStack;
        stack := stack[..|stack| - 1];
        onStack := onStack - {selected};
        component := component + [selected];
        if selected == node {
          break;
        }
      }
    }

    /** The state between two targets of `node`'s loop. */
    ghost predicate Exploring(node: string, grey: set<string>)
      reads this
    {
      && Valid(grey + {node})
      && node in onStack && lowlinks[node] <= indexes[node]
      && LowWitness(graph, Now(), node, lowlinks[node])
      && LowCoversAbove(graph, Now(), indexes[node], lowlinks[node])
    }

    /** One round of the loop over `node`'s targets. */
    method Explore(node: string, target: string, ghost explored: set<string>, ghost grey: set<string>)
      requires Exploring(node, grey) && target in Successors(graph, node)
      requires TargetsCovered(Now(), explored, indexes[node], lowlinks[node])
      requires forall z :: z in grey ==> Reach(graph, z, node)
      modifies this
      ensures Exploring(node, grey) && Grown(old(Now()), Now())
      ensures old(indexes.Keys) <= indexes.Keys && indexes[node] == old(indexes)[node]
      ensures forall x :: x in old(lowlinks) && x != node ==> x in lowlinks && lowlinks[x] == old(lowlinks)[x]
      ensures TargetsCovered(Now(), explored + {target}, indexes[node], lowlinks[node])
      decreases Vertices(graph) - indexes.Keys, 1
    {
      hide Vertices, Successors, Reach, Mutual, StackShape;
      hide NoEscape, Linked, Anchored, WholeClassesDone, ComponentsRecorded, LowWitness, LowCoversAbove;
      hide TargetsCovered, Grown, LowCovers;
      if target !in indexes {
        TargetIsReached(graph, grey, node, target);
        ghost var before := Now();
        Visit(target, grey + {node});
        AfterChild(graph, before, Now(), node, target, lowlinks[node], lowlinks[target]);
        TargetsStayCovered(before, Now(), explored, target, indexes[node], lowlinks[node],
                           Min(lowlinks[node], lowlinks[target]));
        lowlinks := lowlinks[node := Min(lowlinks[node], lowlinks[target])];
      } else if target in onStack {
        AtStackEntry(graph, Now(), node, target, lowlinks[node]);
        TargetsStayCovered(Now(), Now(), explored, target, indexes[node], lowlinks[node],
                           Min(lowlinks[node], indexes[target]));
        lowlinks := lowlinks[node := Min(lowlinks[node], indexes[target])];
      } else {
        AtDoneTarget(graph, Now(), node, target, lowlinks[node]);
        TargetsStayCovered(Now(), Now(), explored, target, indexes[node], lowlinks[node], lowlinks[node]);
      }
    }

    /** The loop over `node`'s targets in sorted order. */
    method ExploreAll(node: string, ghost grey: set<string>)
      requires Exploring(node, grey)
      requires forall z :: z in grey ==> Reach(graph, z, node)
      requires TargetsCovered(Now(), {}, indexes[node], lowlinks[node])
      modifies this
      ensures Exploring(node, grey) && Grown(old(Now()), Now())
      ensures old(indexes.Keys) <= indexes.Keys && indexes[node] == old(indexes)[node]
      ensures forall x :: x in old(lowlinks) && x != node ==> x in lowlinks && lowlinks[x] == old(lowlinks)[x]
      ensures TargetsCovered(Now(), Successors(graph, node), indexes[node], lowlinks[node])
      decreases Vertices(graph) - indexes.Keys, 2
    {
      hide Vertices, Successors, Reach, Mutual, StackShape, Ascending;
      hide NoEscape, Linked, Anchored, WholeClassesDone, ComponentsRecorded, LowWitness, LowCoversAbove;
      hide TargetsCovered, Grown, LowCovers;
      var targets := SortedStrings(Successors(graph, node));
      var i := 0;
      GrownReflexive(Now());
      assert Firsts(targets, 0) == {};
      while i < |targets|
        invariant 0 <= i <= |targets|
        invariant node in indexes && node in lowlinks
        invariant Exploring(node, grey) && Grown(old(Now()), Now())
        invariant old(indexes.Keys) <= indexes.Keys && indexes[node] == old(indexes)[node]
        invariant forall x :: x in old(lowlinks) && x != node ==> x in lowlinks && lowlinks[x] == old(lowlinks)[x]
        invariant TargetsCovered(Now(), Firsts(targets, i), indexes[node], lowlinks[node])
      {
        assert targets[i] in Successors(graph, node);
        ghost var before := Now();
        Explore(node, targets[i], Firsts(targets, i), grey);
        GrownTransitive(old(Now()), before, Now());
        FirstsStep(targets, i);
        i := i + 1;
      }
      assert targets[..i] == targets;
      assert Firsts(targets, i) == Successors(graph, node);
    }

    method Visit(node: string, ghost grey: set<string>)
      requires Valid(grey) && node in Vertices(graph) && node !in indexes
      requires forall z :: z in grey ==> Reach(graph, z, node)
      modifies this
      ensures Valid(grey) && Grown(old(Now()), Now())
      ensures forall x :: x in old(lowlinks) ==> x in lowlinks && lowlinks[x] == old(lowlinks)[x]
      ensures node in indexes && indexes[node] == old(index) && lowlinks[node] <= indexes[node]
      ensures if node in onStack then LowWitness(graph, Now(), node, lowlinks[node])
              else lowlinks[node] == indexes[node]
      ensures LowCovers(graph, Now(), old(index), lowlinks[node])
      decreases Vertices(graph) - indexes.Keys, 0
    {
      hide Vertices, Successors, Reach, Mutual, StackShape;
      hide NoEscape, Linked, Anchored, WholeClassesDone, ComponentsRecorded, LowWitness, LowCoversAbove;
      hide TargetsCovered, Grown, LowCovers;
      EnteredVertex(graph, Now(), grey, node);
      Enter(node, grey);
      ghost var entered := Now();
      ExploreAll(node, grey);
      GrownTransitive(old(Now()), entered, Now());
      GrownFacts(old(Now()), Now(), old(index));
      ghost var explored := Now();
      Leave(node, grey);
      PoppedGrown(old(Now()), explored, Now(), indexes[node]);
    }

    /** The end of `visit`: keep the vertex on the stack, or pop its component. */
    method Leave(node: string, ghost grey: set<string>)
      requires Exploring(node, grey) && forall z :: z in grey ==> z in indexes && indexes[z] < indexes[node]
      requires TargetsCovered(Now(), Successors(graph, node), indexes[node], lowlinks[node])
      modifies this
      ensures Valid(grey)
      ensures index == old(index) && indexes == old(indexes) && lowlinks == old(lowlinks)
      ensures onStack == old(onStack) || onStack == old(onStack) - Top(old(Now()), indexes[node])
      ensures if node in onStack then LowWitness(graph, Now(), node, lowlinks[node])
              else lowlinks[node] == indexes[node]
      ensures LowCovers(graph, Now(), indexes[node], lowlinks[node])
    {
      NodeCovers(graph, stack, Now(), node, lowlinks[node]);
      if lowlinks[node] != indexes[node] {
        BlackenKeepsInv(graph, Now(), grey, node, lowlinks[node]);
        return;
      }
      ghost var before := Now();
      var component := PopThrough(node);
      StrLtStrictTotal();
      SortedNoRepeats(StrLt, component);
      PopKeepsInv(graph, before, grey, node, Sorted(StrLt, component));
      if |component| > 1 {
        components := components + [Sorted(StrLt, component)];
      }
      assert Now() == Popped(before, indexes[node], Sorted(StrLt, component));
    }
  }

  lemma KeysAreVertices(g: Graph)
    ensures g.Keys <= Vertices(g)
  {
  }

  method StronglyConnectedComponents(graph: Graph) returns (r: seq<seq<string>>)
    ensures IsComponentListing(graph, r)
  {
    hide Reach, Mutual, StackShape, Ascending, Vertices, IsComponentListing;
    hide NoEscape, Linked, Anchored, WholeClassesDone, ComponentsRecorded, LowWitness, LowCovers, Grown;
    var search := new ComponentSearch(graph);
    var nodes := SortedStrings(graph.Keys);
    var i := 0;
    while i < |nodes|
      invariant 0 <= i <= |nodes|
      invariant search.Valid({}) && search.graph == graph
      invariant forall j :: 0 <= j < i ==> nodes[j] in search.indexes
    {
      assert nodes[i] in graph.Keys;
      KeysAreVertices(graph);
      if nodes[i] !in search.indexes {
        search.Visit(nodes[i], {});
      }
      i := i + 1;
    }
    ListLtStrictTotal();
    r := Sorted(ListLt, search.components);
    FinishedSearchListsAll(graph, search.Now(), r);
  }

  lemma NoGreyEmptiesStack(g: Graph, s: Snapshot)
    requires s.Numbered(g, {}) && Anchored(g, s, {})
    ensures s.onStack == {}
  {
    assert forall y {:trigger y in s.onStack} :: y in s.onStack ==> AnchoredAt(g, s, {}, y);
  }

  lemma ClassIsRecorded(g: Graph, s: Snapshot, c: seq<string>)
    requires ComponentsRecorded(g, s) && s.onStack == {} && g.Keys <= s.indexes.Keys
    requires NontrivialClass(g, c)
    ensures c in s.components
  {
    hide Reach;
    StrLtStrictTotal();
    var x, y := c[0], c[1];
    assert x in c && y in c;
    assert x != y && Mutual(g, x, y);
    ReachStaysInVertices(g, x, y);
    assert s.Done(x);
    var d :| d in s.components && x in d;
    forall z ensures z in c <==> z in d {
      assert z in c <==> Mutual(g, x, z);
    }
    AscendingUnique(StrLt, c, d);
  }

  /** With nothing grey the stack is empty, so every vertex has been popped with its class. */
  lemma FinishedSearchListsAll(g: Graph, s: Snapshot, r: seq<seq<string>>)
    requires Inv(g, s, {}) && g.Keys <= s.indexes.Keys
    requires StrictTotal(ListLt) && r == Sorted(ListLt, s.components)
    ensures IsComponentListing(g, r)
  {
    hide NontrivialClass, Linked, NoEscape, WholeClassesDone;
    SortedNoRepeats(ListLt, s.components);
    NoGreyEmptiesStack(g, s);
    forall c | NontrivialClass(g, c) ensures c in r {
      ClassIsRecorded(g, s, c);
    }
  }

  // ------------------------------------------------------------------ known import targets

  const PACKAGE_ROOT := "aec_bench"

  /** p is s itself or ends right before a dot of s. */
  predicate DottedPrefix(p: string, s: string) {
    p <= s && (|p| == |s| || s[|p|] == '.')
  }

  predicate IsTarget(q: string, imported: string, known: set<string>) {
    q in known && DottedPrefix(q, imported) && PACKAGE_ROOT <= q
  }

  /** `candidate.rpartition(".")[0]` when there is a dot. */
  function BeforeLastDot(s: string): (r: string)
    requires '.' in s
    ensures r < s && s[|r|] == '.' && forall k :: |r| < k < |s| ==> s[k] != '.'
  {
    if s[|s| - 1] == '.' then s[..|s| - 1]
    else BeforeLastDot(s[..|s| - 1])
  }

  /** Dropping the last component passes over no dotted prefix. */
  lemma NoPrefixBetween(q: string, candidate: string, imported: string)
    requires DottedPrefix(candidate, imported) && DottedPrefix(q, imported) && |q| < |candidate|
    ensures q < candidate && candidate[|q|] == '.'
    ensures '.' in candidate && |q| <= |BeforeLastDot(candidate)|
  {
    assert candidate[|q|] == imported[|q|];
  }

  /** The longest known dotted prefix inside the package, if there is one. */
  method KnownTarget(imported: string, known: set<string>) returns (r: Option<string>)
    ensures r.Some? ==> IsTarget(r.value, imported, known)
    ensures r.Some? ==> forall q :: IsTarget(q, imported, known) ==> |q| <= |r.value|
    ensures r.None? ==> forall q :: !IsTarget(q, imported, known)
  {
    var candidate := imported;
    while PACKAGE_ROOT <= candidate
      invariant DottedPrefix(candidate, imported)
      invariant forall q :: IsTarget(q, imported, known) ==> |q| <= |candidate|
      decreases |candidate|
    {
      if candidate in known {
        return Some(candidate);
      }
      forall q | IsTarget(q, imported, known) ensures '.' in candidate && |q| <= |BeforeLastDot(candidate)| {
        assert q != candidate;
        assert q == imported[..|q|] && candidate == imported[..|candidate|];
        NoPrefixBetween(q, candidate, imported);
      }
      if '.' !in candidate {
        break;
      }
      candidate := BeforeLastDot(candidate);
    }
    r := None;
  }
}
