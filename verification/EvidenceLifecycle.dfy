/** src/aec_bench/contracts/evidence_lifecycle.py: the request graph of a checkpoint is
    accepted only when it is acyclic and every request fits the budget together with
    everything it needs. The operation graph runs the same code under other names. */
module EvidenceLifecycle {
  import opened Graphs
  import opened Ordering
  import opened Collections

  datatype Request = Request(id: string, prerequisites: seq<string>)

  datatype ConditionalSpec = ConditionalSpec(budget: int, requests: seq<Request>)

  function Ids(requests: seq<Request>): (ids: seq<string>)
    ensures |ids| == |requests| && forall i :: 0 <= i < |ids| ==> ids[i] == requests[i].id
  {
    seq(|requests|, i requires 0 <= i < |requests| => requests[i].id)
  }

  /** The prerequisite table: a later request with the same id overwrites an earlier one. */
  function PrerequisiteTable(requests: seq<Request>): (g: Graph)
    ensures forall x :: x in g <==> x in Ids(requests)
  {
    if requests == [] then map[]
    else
      var n := |requests| - 1;
      assert Ids(requests) == Ids(requests[..n]) + [requests[n].id];
      PrerequisiteTable(requests[..n])[requests[n].id := Elements(requests[n].prerequisites)]
  }

  lemma {:induction false} TableEntry(requests: seq<Request>, i: nat)
    requires NoRepeats(Ids(requests)) && i < |requests|
    ensures PrerequisiteTable(requests)[requests[i].id] == Elements(requests[i].prerequisites)
  {
    var n := |requests| - 1;
    assert Ids(requests) == Ids(requests[..n]) + [requests[n].id];
    if i < n {
      assert Ids(requests)[i] != Ids(requests)[n];
      assert Ids(requests[..n]) == Ids(requests)[..n];
      TableEntry(requests[..n], i);
    }
  }

  // ------------------------------------------------------------ exact transitive closure

  /** Every request that must come before `id`. */
  ghost function TransitivePrerequisites(g: Graph, id: string): set<string> {
    set y | y in Vertices(g) && ReachPlus(g, id, y)
  }

  lemma ReachPlusInVertices(g: Graph, x: string, y: string)
    requires ReachPlus(g, x, y)
    ensures y in TransitivePrerequisites(g, x)
  {
    var z :| z in Successors(g, x) && Reach(g, z, y);
    if z != y {
      ReachStaysInVertices(g, z, y);
    }
  }

  lemma PrerequisiteShrinks(g: Graph, x: string, d: string)
    requires Acyclic(g) && d in Successors(g, x)
    ensures TransitivePrerequisites(g, d) < TransitivePrerequisites(g, x)
    ensures d in TransitivePrerequisites(g, x)
  {
    ReachEdge(g, x, d);
    ReachPlusInVertices(g, x, d);
    forall y | y in TransitivePrerequisites(g, d) ensures y in TransitivePrerequisites(g, x) {
      ReachStep(g, d, y);
      assert ReachPlus(g, x, y);
    }
    assert d !in TransitivePrerequisites(g, d);
  }

  // ------------------------------------------------------------------ orders and budgets

  /** Requests made one after the other, none twice, each after all its prerequisites. */
  ghost predicate ValidSequence(g: Graph, s: seq<string>) {
    && NoRepeats(s)
    && forall i :: 0 <= i < |s| ==> Successors(g, s[i]) <= Elements(s[..i])
  }

  /** A valid sequence reaches a request only after its whole closure. */
  lemma ClosureComesFirst(g: Graph, s: seq<string>, i: nat)
    requires ValidSequence(g, s) && i < |s|
    ensures TransitivePrerequisites(g, s[i]) <= Elements(s[..i])
    ensures i >= |TransitivePrerequisites(g, s[i])|
  {
    var before := Elements(s[..i]);
    forall x, y | x in before && y in Successors(g, x) ensures y in before {
      var j :| 0 <= j < i && s[j] == x;
      assert y in Elements(s[..j]);
      var k :| 0 <= k < j && s[..j][k] == y;
      assert s[..i][k] == y;
    }
    forall y | y in TransitivePrerequisites(g, s[i]) ensures y in before {
      var z :| z in Successors(g, s[i]) && Reach(g, z, y);
      ClosedReach(g, before, z, y);
    }
    SubsetSize(TransitivePrerequisites(g, s[i]), before);
    ElementsCount(s[..i]);
  }

  /** Some pending request has nothing pending before it. */
  lemma {:induction false} ReadyRequest(g: Graph, pending: set<string>, x: string) returns (r: string)
    requires Acyclic(g) && x in pending
    ensures r in pending && Successors(g, r) !! pending
    decreases TransitivePrerequisites(g, x)
  {
    if Successors(g, x) !! pending {
      r := x;
    } else {
      var d :| d in Successors(g, x) && d in pending;
      PrerequisiteShrinks(g, x, d);
      r := ReadyRequest(g, pending, d);
    }
  }

  lemma AppendReady(g: Graph, s: seq<string>, x: string)
    requires ValidSequence(g, s) && x !in Elements(s) && Successors(g, x) <= Elements(s)
    ensures ValidSequence(g, s + [x]) && Elements(s + [x]) == Elements(s) + {x}
  {
    var longer := s + [x];
    assert longer[..|s|] == s;
    assert forall i :: 0 <= i < |s| ==> s[i] in Elements(s);
    forall i | 0 <= i < |longer| ensures Successors(g, longer[i]) <= Elements(longer[..i]) {
      if i < |s| {
        assert longer[..i] == s[..i];
      }
    }
  }

  lemma {:induction false} ExtendOrder(g: Graph, s: seq<string>, goal: set<string>) returns (r: seq<string>)
    requires Acyclic(g) && Closed(g, goal)
    requires ValidSequence(g, s) && Elements(s) <= goal
    ensures ValidSequence(g, r) && Elements(r) == goal
    decreases goal - Elements(s)
  {
    var pending := goal - Elements(s);
    if pending == {} {
      assert forall x :: x in goal ==> x in pending || x in Elements(s);
      r := s;
    } else {
      var start :| start in pending;
      var x := ReadyRequest(g, pending, start);
      AppendReady(g, s, x);
      r := ExtendOrder(g, s + [x], goal);
    }
  }

  /** The shortest way to make a request: its closure in some order, then the request. */
  lemma OrderEndingIn(g: Graph, id: string) returns (s: seq<string>)
    requires Acyclic(g)
    ensures ValidSequence(g, s) && |s| == |TransitivePrerequisites(g, id)| + 1 && s[|s| - 1] == id
  {
    var closure := TransitivePrerequisites(g, id);
    forall x, y | x in closure && y in Successors(g, x) ensures y in closure {
      ReachEdge(g, x, y);
      ReachStep(g, id, x);
      ReachPlusTransitive(g, id, x, y);
      ReachPlusInVertices(g, id, y);
    }
    var r := ExtendOrder(g, [], closure);
    ElementsCount(r);
    forall y | y in Successors(g, id) ensures y in closure {
      PrerequisiteShrinks(g, id, y);
    }
    AppendReady(g, r, id);
    s := r + [id];
  }

  ghost predicate ReachableWithin(g: Graph, id: string, budget: int) {
    exists s :: ValidSequence(g, s) && s != [] && s[|s| - 1] == id && |s| <= budget
  }

  /** The number the validator compares with the budget is the length of the shortest valid
      sequence that contains the request. */
  lemma RequiredBudgetIsExact(g: Graph, id: string, budget: int)
    requires Acyclic(g)
    ensures |TransitivePrerequisites(g, id)| + 1 <= budget <==> ReachableWithin(g, id, budget)
    ensures forall s :: ValidSequence(g, s) && id in s ==> |TransitivePrerequisites(g, id)| + 1 <= |s|
  {
    var shortest := OrderEndingIn(g, id);
    forall s | ValidSequence(g, s) && id in s ensures |TransitivePrerequisites(g, id)| + 1 <= |s| {
      var i :| 0 <= i < |s| && s[i] == id;
      ClosureComesFirst(g, s, i);
    }
  }

  // ------------------------------------------------------------------------ the traversal

  /** Each vertex of the path depends on the next one, and the last one on `id`. */
  ghost predicate Chain(g: Graph, path: seq<string>, id: string) {
    && (forall i :: 0 < i < |path| ==> path[i] in Successors(g, path[i - 1]))
    && (path != [] ==> id in Successors(g, path[|path| - 1]))
  }

  lemma {:induction false} ChainReaches(g: Graph, path: seq<string>, id: string, i: nat)
    requires Chain(g, path, id) && i < |path|
    ensures ReachPlus(g, path[i], id)
    decreases |path| - i
  {
    if i == |path| - 1 {
      ReachEdge(g, path[i], id);
    } else {
      ChainReaches(g, path, id, i + 1);
      assert path[i + 1] in Successors(g, path[i]);
      ReachStep(g, path[i + 1], id);
    }
  }

  /** Visited requests are closed under prerequisites and lie on no cycle. */
  ghost predicate Settled(g: Graph, visited: set<string>) {
    && Closed(g, visited)
    && forall x :: x in visited ==> !ReachPlus(g, x, x)
  }

  lemma SettleOne(g: Graph, visited: set<string>, id: string)
    requires Settled(g, visited) && id !in visited && Successors(g, id) <= visited
    ensures Settled(g, visited + {id})
  {
    if ReachPlus(g, id, id) {
      var z :| z in Successors(g, id) && Reach(g, z, id);
      ClosedReach(g, visited, z, id);
      assert false;
    }
  }

  ghost predicate MemoExact(g: Graph, closures: map<string, set<string>>) {
    forall x :: x in closures ==> closures[x] == TransitivePrerequisites(g, x)
  }

  /** `closure` holds what the requests in `done` reach, themselves included. */
  ghost predicate ReachedFrom(g: Graph, done: set<string>, closure: set<string>) {
    forall y :: y in closure <==> exists d :: d in done && Reach(g, d, y)
  }

  lemma EmptyReachedFrom(g: Graph)
    ensures ReachedFrom(g, {}, {})
  {
  }

  lemma ReachedFromOneMore(g: Graph, done: set<string>, closure: set<string>, d: string)
    requires ReachedFrom(g, done, closure)
    ensures ReachedFrom(g, done + {d}, closure + {d} + TransitivePrerequisites(g, d))
  {
    forall y ensures y in TransitivePrerequisites(g, d) || y == d <==> Reach(g, d, y) {
      ReachStep(g, d, y);
      if ReachPlus(g, d, y) {
        ReachPlusInVertices(g, d, y);
      }
    }
  }

  lemma ReachedFromAll(g: Graph, id: string, closure: set<string>)
    requires ReachedFrom(g, Successors(g, id), closure)
    ensures closure == TransitivePrerequisites(g, id)
  {
    forall y ensures y in closure <==> y in TransitivePrerequisites(g, id) {
      if ReachPlus(g, id, y) {
        ReachPlusInVertices(g, id, y);
      }
    }
  }

  lemma NotItsOwnPrerequisite(g: Graph, id: string)
    requires Acyclic(g)
    ensures id !in TransitivePrerequisites(g, id)
  {
  }

  lemma SuccessorKnown(g: Graph, x: string, y: string)
    requires Vertices(g) <= g.Keys && y in Successors(g, x)
    ensures y in g
  {
    assert y in Vertices(g);
  }

  /** The sets and the memo table that the nested functions of the validator share. */
  class PrerequisiteChecker {
    const prerequisites: Graph
    var visiting: set<string>
    var visited: set<string>
    var closures: map<string, set<string>>

    ghost predicate Valid()
      reads this
    {
      && Settled(prerequisites, visited)
      && visiting !! visited
      && visiting + visited <= prerequisites.Keys
    }

    constructor (prerequisites: Graph)
      ensures Valid() && this.prerequisites == prerequisites
      ensures visiting == {} && visited == {} && closures == map[]
    {
      this.prerequisites := prerequisites;
      visiting, visited, closures := {}, {}, map[];
    }

    /** `path` lists the calls in progress: it is exactly what `visiting` holds. The call
        terminates before it is known that the graph has no cycle. */
    method Visit(id: string, ghost path: seq<string>) returns (raised: bool)
      requires Valid() && Vertices(prerequisites) <= prerequisites.Keys && id in prerequisites
      requires visiting == Elements(path) && NoRepeats(path) && Chain(prerequisites, path, id)
      modifies this`visiting, this`visited
      ensures raised ==> !Acyclic(prerequisites)
      ensures !raised ==> Valid() && visiting == old(visiting) && old(visited) + {id} <= visited
      decreases prerequisites.Keys - visiting
    {
      if id in visiting {
        ghost var i :| 0 <= i < |path| && path[i] == id;
        ChainReaches(prerequisites, path, id, i);
        return true;
      }
      if id in visited {
        return false;
      }
      visiting := visiting + {id};
      ghost var longer := path + [id];
      assert Elements(longer) == visiting;
      var todo := prerequisites[id];
      while todo != {}
        invariant todo <= prerequisites[id] && prerequisites[id] - todo <= visited
        invariant Valid() && visiting == Elements(longer) && old(visited) <= visited
      {
        var dependency :| dependency in todo;
        assert dependency in Successors(prerequisites, id);
        raised := Visit(dependency, longer);
        if raised {
          return;
        }
        todo := todo - {dependency};
      }
      visiting := visiting - {id};
      SettleOne(prerequisites, visited, id);
      visited := visited + {id};
      raised := false;
    }

    /** The memoised closure; it terminates because the graph has no cycle. */
    method PrerequisiteClosure(id: string) returns (closure: set<string>)
      requires Acyclic(prerequisites) && MemoExact(prerequisites, closures)
      requires Vertices(prerequisites) <= prerequisites.Keys && id in prerequisites
      modifies this`closures
      ensures closure == TransitivePrerequisites(prerequisites, id) && id !in closure
      ensures MemoExact(prerequisites, closures)
      ensures closures.Keys >= old(closures).Keys + {id}
      decreases TransitivePrerequisites(prerequisites, id)
    {
      hide Reach, ReachPlus, Acyclic, Vertices, TransitivePrerequisites, ReachedFrom;
      EmptyReachedFrom(prerequisites);
      NotItsOwnPrerequisite(prerequisites, id);
      if id in closures {
        return closures[id];
      }
      closure := {};
      var todo := prerequisites[id];
      ghost var all := todo;
      assert all == Successors(prerequisites, id);
      assert all - todo == {};
      while todo != {}
        invariant todo <= all
        invariant ReachedFrom(prerequisites, all - todo, closure)
        invariant MemoExact(prerequisites, closures) && old(closures).Keys <= closures.Keys
        decreases todo
      {
        var dependency :| dependency in todo;
        PrerequisiteShrinks(prerequisites, id, dependency);
        SuccessorKnown(prerequisites, id, dependency);
        var nested := PrerequisiteClosure(dependency);
        ReachedFromOneMore(prerequisites, all - todo, closure, dependency);
        closure := closure + {dependency} + nested;
        assert all - (todo - {dependency}) == all - todo + {dependency};
        todo := todo - {dependency};
      }
      assert all - todo == all;
      ReachedFromAll(prerequisites, id, closure);
      closures := closures[id := closure];
    }
  }

  // ------------------------------------------------------------------------ the validator

  datatype Verdict =
    | Accepted
    | DuplicateIds
    | BudgetAboveCount
    | UnknownPrerequisites(id: string, unknown: set<string>)
    | CyclicPrerequisites
    | BudgetTooSmall(id: string, required: nat)

  predicate KnownUpTo(requests: seq<Request>, n: nat)
    requires n <= |requests|
  {
    forall i :: 0 <= i < n ==> Elements(requests[i].prerequisites) <= Elements(Ids(requests))
  }

  ghost predicate AffordableUpTo(spec: ConditionalSpec, n: nat)
    requires n <= |spec.requests|
  {
    forall i :: 0 <= i < n ==> ReachableWithin(PrerequisiteTable(spec.requests), spec.requests[i].id, spec.budget)
  }

  /** Which verdict a specification gets; the clauses exclude each other and name the first
      offending request in declaration order. */
  ghost predicate IsVerdict(spec: ConditionalSpec, v: Verdict) {
    var requests := spec.requests;
    var g := PrerequisiteTable(requests);
    var n := |requests|;
    match v
    case DuplicateIds => !NoRepeats(Ids(requests))
    case BudgetAboveCount => NoRepeats(Ids(requests)) && spec.budget > n
    case UnknownPrerequisites(id, unknown) =>
      NoRepeats(Ids(requests)) && spec.budget <= n && unknown != {}
      && exists i :: 0 <= i < n && requests[i].id == id && KnownUpTo(requests, i)
                     && unknown == Elements(requests[i].prerequisites) - Elements(Ids(requests))
    case CyclicPrerequisites =>
      NoRepeats(Ids(requests)) && spec.budget <= n && KnownUpTo(requests, n) && !Acyclic(g)
    case BudgetTooSmall(id, required) =>
      NoRepeats(Ids(requests)) && spec.budget <= n && KnownUpTo(requests, n) && Acyclic(g)
      && exists i :: 0 <= i < n && requests[i].id == id && AffordableUpTo(spec, i)
                     && !ReachableWithin(g, id, spec.budget) && ReachableWithin(g, id, required)
                     && !ReachableWithin(g, id, required - 1)
    case Accepted =>
      NoRepeats(Ids(requests)) && spec.budget <= n && KnownUpTo(requests, n) && Acyclic(g)
      && AffordableUpTo(spec, n)
  }

  lemma KnownTable(requests: seq<Request>)
    requires NoRepeats(Ids(requests)) && KnownUpTo(requests, |requests|)
    ensures Vertices(PrerequisiteTable(requests)) <= PrerequisiteTable(requests).Keys
  {
    hide PrerequisiteTable, NoRepeats;
    var g := PrerequisiteTable(requests);
    forall v | v in Vertices(g) ensures v in g.Keys {
      if v !in g.Keys {
        var x :| x in g && v in g[x];
        var i := IdIndex(requests, x);
        TableEntry(requests, i);
      }
    }
  }

  lemma IdIndex(requests: seq<Request>, x: string) returns (i: nat)
    requires x in PrerequisiteTable(requests)
    ensures i < |requests| && requests[i].id == x
  {
    assert x in Ids(requests);
    i :| 0 <= i < |requests| && Ids(requests)[i] == x;
  }

  /** The first declared request with an unknown prerequisite (lines 53-57). */
  method FindUnknown(requests: seq<Request>) returns (i: nat, unknown: set<string>)
    requires NoRepeats(Ids(requests))
    ensures i <= |requests| && KnownUpTo(requests, i)
    ensures i < |requests| ==> unknown != {} && unknown == Elements(requests[i].prerequisites) - Elements(Ids(requests))
  {
    hide PrerequisiteTable, NoRepeats;
    var prerequisites := PrerequisiteTable(requests);
    i, unknown := 0, {};
    while i < |requests|
      invariant 0 <= i <= |requests| && KnownUpTo(requests, i)
    {
      TableEntry(requests, i);
      assert Ids(requests)[i] in prerequisites;
      unknown := prerequisites[requests[i].id] - Elements(Ids(requests));
      if unknown != {} {
        return;
      }
      assert forall x :: x in Elements(requests[i].prerequisites) ==> x in unknown || x in Elements(Ids(requests));
      i := i + 1;
    }
  }

  /** `visit` over all ids raises exactly when the relation has a cycle (lines 59-74). */
  method FindCycle(prerequisites: Graph, ids: seq<string>) returns (checker: PrerequisiteChecker, raised: bool)
    requires Vertices(prerequisites) <= prerequisites.Keys && prerequisites.Keys == Elements(ids)
    ensures raised <==> !Acyclic(prerequisites)
    ensures fresh(checker) && checker.prerequisites == prerequisites && checker.closures == map[]
  {
    checker := new PrerequisiteChecker(prerequisites);
    var i := 0;
    while i < |ids|
      invariant 0 <= i <= |ids|
      invariant checker.Valid() && checker.visiting == {} && checker.closures == map[]
      invariant forall j :: 0 <= j < i ==> ids[j] in checker.visited
    {
      assert ids[i] in Elements(ids);
      raised := checker.Visit(ids[i], []);
      if raised {
        return;
      }
      i := i + 1;
    }
    AllVisitedMeansAcyclic(prerequisites, checker.visited);
    raised := false;
  }

  /** The first declared request that its closure makes too expensive (lines 89-95). */
  method FindUnaffordable(checker: PrerequisiteChecker, ids: seq<string>, budget: int) returns (i: nat, required: nat)
    requires Acyclic(checker.prerequisites) && checker.closures == map[]
    requires Vertices(checker.prerequisites) <= checker.prerequisites.Keys == Elements(ids)
    modifies checker`closures
    ensures i <= |ids| && forall j :: 0 <= j < i ==>
      |TransitivePrerequisites(checker.prerequisites, ids[j])| + 1 <= budget
    ensures i < |ids| ==> |TransitivePrerequisites(checker.prerequisites, ids[i])| + 1 == required > budget
  {
    i, required := 0, 0;
    while i < |ids|
      invariant 0 <= i <= |ids| && MemoExact(checker.prerequisites, checker.closures)
      invariant forall j :: 0 <= j < i ==> |TransitivePrerequisites(checker.prerequisites, ids[j])| + 1 <= budget
    {
      assert ids[i] in Elements(ids);
      var closure := checker.PrerequisiteClosure(ids[i]);
      required := |closure| + 1;
      if required > budget {
        return;
      }
      i := i + 1;
    }
  }

  method ValidateRequestGraph(spec: ConditionalSpec) returns (v: Verdict)
    ensures IsVerdict(spec, v)
  {
    hide PrerequisiteTable, Acyclic, Vertices, ReachableWithin, TransitivePrerequisites, NoRepeats, KnownUpTo;
    var requests := spec.requests;
    var ids := Ids(requests);
    CountShowsRepeats(ids);
    if |ids| != |Elements(ids)| {
      return DuplicateIds;
    }
    if spec.budget > |ids| {
      return BudgetAboveCount;
    }
    var i, unknown := FindUnknown(requests);
    if i < |requests| {
      return UnknownPrerequisites(requests[i].id, unknown);
    }
    var prerequisites := PrerequisiteTable(requests);
    KnownTable(requests);
    assert prerequisites.Keys == Elements(ids);
    var checker, raised := FindCycle(prerequisites, ids);
    if raised {
      return CyclicPrerequisites;
    }
    var j, required := FindUnaffordable(checker, ids, spec.budget);
    forall k | 0 <= k < j ensures ReachableWithin(prerequisites, ids[k], spec.budget) {
      RequiredBudgetIsExact(prerequisites, ids[k], spec.budget);
    }
    if j < |ids| {
      RequiredBudgetIsExact(prerequisites, ids[j], spec.budget);
      RequiredBudgetIsExact(prerequisites, ids[j], required);
      RequiredBudgetIsExact(prerequisites, ids[j], required - 1);
      return BudgetTooSmall(ids[j], required);
    }
    v := Accepted;
  }

  lemma AllVisitedMeansAcyclic(g: Graph, visited: set<string>)
    requires Settled(g, visited) && g.Keys <= visited
    ensures Acyclic(g)
  {
    hide Reach;
    forall x ensures !ReachPlus(g, x, x) {
      if x !in g {
        assert Successors(g, x) == {};
      }
    }
  }

  // ------------------------------------------------------------------ ordered checkpoints

  datatype Protocol = NoProtocol | EvidenceRequests | Operations

  /** A checkpoint declares evidence requests or operations, never both (lines 221-222). */
  datatype Checkpoint = Checkpoint(id: string, submissionPath: string, dependsOn: seq<string>, protocol: Protocol)

  datatype LifecycleVerdict =
    | LifecycleAccepted
    | DuplicateCheckpoints
    | DuplicateSubmissionPaths
    | LaterDependency(unknown: set<string>)
    | MixedProtocols

  function CheckpointRequests(checkpoints: seq<Checkpoint>): (r: seq<Request>)
    ensures |r| == |checkpoints|
    ensures forall i :: 0 <= i < |r| ==> r[i] == Request(checkpoints[i].id, checkpoints[i].dependsOn)
  {
    seq(|checkpoints|, i requires 0 <= i < |checkpoints| => Request(checkpoints[i].id, checkpoints[i].dependsOn))
  }

  function CheckpointIds(checkpoints: seq<Checkpoint>): seq<string> {
    Ids(CheckpointRequests(checkpoints))
  }

  function SubmissionPaths(checkpoints: seq<Checkpoint>): seq<string> {
    seq(|checkpoints|, i requires 0 <= i < |checkpoints| => checkpoints[i].submissionPath)
  }

  predicate Declares(checkpoints: seq<Checkpoint>, p: Protocol) {
    exists c :: c in checkpoints && c.protocol == p
  }

  /** The listed order respects every dependency, so the dependencies have no cycle. */
  ghost predicate OrderedLifecycle(checkpoints: seq<Checkpoint>) {
    ValidSequence(PrerequisiteTable(CheckpointRequests(checkpoints)), CheckpointIds(checkpoints))
  }

  lemma FreshId(ids: seq<string>, i: nat)
    requires NoRepeats(ids) && i < |ids|
    ensures ids[i] !in Elements(ids[..i])
  {
  }

  /** `unknown` is what the first offending entry names besides earlier ids. */
  ghost predicate FirstLaterDependency(requests: seq<Request>, unknown: set<string>) {
    exists i :: 0 <= i < |requests|
      && unknown == Elements(requests[i].prerequisites) - Elements(Ids(requests)[..i]) != {}
      && KnownBefore(requests, i)
  }

  lemma MissingPrerequisite(g: Graph, ids: seq<string>, i: nat, x: string)
    requires i < |ids| && x in Successors(g, ids[i]) && x !in Elements(ids[..i])
    ensures !ValidSequence(g, ids)
  {
    assert x !in ids[..i];
  }

  /** No entry before position i names anything but earlier ids. */
  ghost predicate KnownBefore(requests: seq<Request>, i: nat)
    requires i <= |requests|
  {
    forall j :: 0 <= j < i ==> Elements(requests[j].prerequisites) <= Elements(Ids(requests)[..j])
  }

  lemma TableSuccessors(requests: seq<Request>, i: nat)
    requires NoRepeats(Ids(requests)) && i < |requests|
    ensures Successors(PrerequisiteTable(requests), Ids(requests)[i]) == Elements(requests[i].prerequisites)
  {
    hide NoRepeats, PrerequisiteTable;
    TableEntry(requests, i);
  }

  lemma KnownMore(requests: seq<Request>, i: nat)
    requires i < |requests| && KnownBefore(requests, i)
    requires Elements(requests[i].prerequisites) <= Elements(Ids(requests)[..i])
    ensures KnownBefore(requests, i + 1)
  {
    hide Elements;
  }

  lemma EmptyDifference<T>(a: set<T>, b: set<T>)
    requires a - b == {}
    ensures a <= b
  {
    forall x | x in a ensures x in b {
      assert x !in a - b;
    }
  }

  /** One entry of the list: it either settles that the order is wrong or extends the order. */
  lemma EntryAt(requests: seq<Request>, i: nat)
    requires NoRepeats(Ids(requests)) && i < |requests| && KnownBefore(requests, i)
    requires ValidSequence(PrerequisiteTable(requests), Ids(requests)[..i])
    ensures var g, ids := PrerequisiteTable(requests), Ids(requests);
      var unknown := Elements(requests[i].prerequisites) - Elements(ids[..i]);
      if unknown != {} then !ValidSequence(g, ids) && FirstLaterDependency(requests, unknown)
      else
        && ValidSequence(g, ids[..i + 1]) && KnownBefore(requests, i + 1)
        && Elements(ids[..i + 1]) == Elements(ids[..i]) + {ids[i]}
  {
    hide PrerequisiteTable, ValidSequence, KnownBefore, NoRepeats, Elements, Successors, Ids;
    var g, ids := PrerequisiteTable(requests), Ids(requests);
    var unknown := Elements(requests[i].prerequisites) - Elements(ids[..i]);
    TableSuccessors(requests, i);
    if unknown != {} {
      var x :| x in unknown;
      MissingPrerequisite(g, ids, i, x);
    } else {
      EmptyDifference(Elements(requests[i].prerequisites), Elements(ids[..i]));
      KnownMore(requests, i);
      FreshId(ids, i);
      AppendReady(g, ids[..i], ids[i]);
      assert ids[..i + 1] == ids[..i] + [ids[i]];
    }
  }

  /** The loop over `previous` (lines 242-248). */
  method FindLaterDependency(requests: seq<Request>) returns (found: bool, unknown: set<string>)
    requires NoRepeats(Ids(requests))
    ensures !found <==> ValidSequence(PrerequisiteTable(requests), Ids(requests))
    ensures found ==> FirstLaterDependency(requests, unknown)
  {
    ghost var g := PrerequisiteTable(requests);
    var ids := Ids(requests);
    var previous: set<string> := {};
    var i := 0;
    assert ValidSequence(g, ids[..0]);
    hide PrerequisiteTable, ValidSequence, NoRepeats, KnownBefore, FirstLaterDependency;
    assert KnownBefore(requests, 0) by { NothingBefore(requests); }
    while i < |requests|
      invariant 0 <= i <= |requests|
      invariant previous == Elements(ids[..i]) && ValidSequence(g, ids[..i])
      invariant KnownBefore(requests, i)
    {
      EntryAt(requests, i);
      unknown := Elements(requests[i].prerequisites) - previous;
      if unknown != {} {
        return true, unknown;
      }
      previous := previous + {requests[i].id};
      i := i + 1;
    }
    assert ids[..i] == ids;
    found, unknown := false, {};
  }

  lemma NothingBefore(requests: seq<Request>)
    ensures KnownBefore(requests, 0)
  {
  }

  lemma DeclaresIff(checkpoints: seq<Checkpoint>, p: Protocol)
    ensures Declares(checkpoints, p) <==> exists i :: 0 <= i < |checkpoints| && checkpoints[i].protocol == p
  {
    if i :| 0 <= i < |checkpoints| && checkpoints[i].protocol == p {
      assert checkpoints[i] in checkpoints;
    }
  }

  method ValidateOrderedCheckpoints(checkpoints: seq<Checkpoint>) returns (v: LifecycleVerdict)
    ensures v.LifecycleAccepted? <==>
      && OrderedLifecycle(checkpoints) && NoRepeats(SubmissionPaths(checkpoints))
      && !(&& (exists i :: 0 <= i < |checkpoints| && checkpoints[i].protocol == EvidenceRequests)
           && (exists i :: 0 <= i < |checkpoints| && checkpoints[i].protocol == Operations))
    ensures v.DuplicateCheckpoints? <==> !NoRepeats(CheckpointIds(checkpoints))
    ensures v.DuplicateSubmissionPaths? <==>
      NoRepeats(CheckpointIds(checkpoints)) && !NoRepeats(SubmissionPaths(checkpoints))
    ensures v.LaterDependency? ==>
      && NoRepeats(SubmissionPaths(checkpoints)) && !OrderedLifecycle(checkpoints)
      && FirstLaterDependency(CheckpointRequests(checkpoints), v.unknown)
    ensures v.MixedProtocols? ==> OrderedLifecycle(checkpoints) && NoRepeats(SubmissionPaths(checkpoints))
  {
    var ids := CheckpointIds(checkpoints);
    CountShowsRepeats(ids);
    if |ids| != |Elements(ids)| {
      return DuplicateCheckpoints;
    }
    var paths := SubmissionPaths(checkpoints);
    CountShowsRepeats(paths);
    if |paths| != |Elements(paths)| {
      return DuplicateSubmissionPaths;
    }
    DeclaresIff(checkpoints, EvidenceRequests);
    DeclaresIff(checkpoints, Operations);
    hide ValidSequence, NoRepeats, Declares, FirstLaterDependency;
    var found, unknown := FindLaterDependency(CheckpointRequests(checkpoints));
    if found {
      return LaterDependency(unknown);
    }
    if Declares(checkpoints, EvidenceRequests) && Declares(checkpoints, Operations) {
      return MixedProtocols;
    }
    v := LifecycleAccepted;
  }

  lemma OrderedLifecycleIsAcyclic(checkpoints: seq<Checkpoint>)
    requires OrderedLifecycle(checkpoints)
    ensures Acyclic(PrerequisiteTable(CheckpointRequests(checkpoints)))
  {
    var g, ids := PrerequisiteTable(CheckpointRequests(checkpoints)), CheckpointIds(checkpoints);
    forall x ensures !ReachPlus(g, x, x) {
      if ReachPlus(g, x, x) {
        ReachPlusInVertices(g, x, x);
        assert x in ids;
        var i :| 0 <= i < |ids| && ids[i] == x;
        ClosureComesFirst(g, ids, i);
        assert false;
      }
    }
  }

  /** The order of checkpoints, one by one: no identifier twice, and every dependency names an
      earlier checkpoint. */
  lemma OrderedLifecycleMeans(checkpoints: seq<Checkpoint>)
    ensures NoRepeats(CheckpointIds(checkpoints)) <==>
      forall i, j :: 0 <= i < j < |checkpoints| ==> checkpoints[i].id != checkpoints[j].id
    ensures NoRepeats(SubmissionPaths(checkpoints)) <==>
      forall i, j :: 0 <= i < j < |checkpoints| ==> checkpoints[i].submissionPath != checkpoints[j].submissionPath
    ensures OrderedLifecycle(checkpoints) <==>
      && (forall i, j :: 0 <= i < j < |checkpoints| ==> checkpoints[i].id != checkpoints[j].id)
      && (forall i, d :: 0 <= i < |checkpoints| && d in checkpoints[i].dependsOn ==> IsEarlier(checkpoints, i, d))
  {
    var requests := CheckpointRequests(checkpoints);
    var ids, paths := CheckpointIds(checkpoints), SubmissionPaths(checkpoints);
    assert forall i :: 0 <= i < |checkpoints| ==>
      ids[i] == checkpoints[i].id && paths[i] == checkpoints[i].submissionPath;
    if NoRepeats(ids) {
      forall i | 0 <= i < |checkpoints|
        ensures Successors(PrerequisiteTable(requests), ids[i]) <= Elements(ids[..i]) <==>
                forall d :: d in checkpoints[i].dependsOn ==> IsEarlier(checkpoints, i, d)
      {
        DependenciesEarlier(checkpoints, i);
      }
    }
  }

  /** The name is the identifier of a checkpoint before position i. */
  ghost predicate IsEarlier(checkpoints: seq<Checkpoint>, i: nat, d: string)
    requires i <= |checkpoints|
  {
    exists j :: 0 <= j < i && checkpoints[j].id == d
  }

  lemma DependenciesEarlier(checkpoints: seq<Checkpoint>, i: nat)
    requires NoRepeats(CheckpointIds(checkpoints)) && i < |checkpoints|
    ensures var ids := CheckpointIds(checkpoints);
      Successors(PrerequisiteTable(CheckpointRequests(checkpoints)), ids[i]) <= Elements(ids[..i]) <==>
      forall d :: d in checkpoints[i].dependsOn ==> IsEarlier(checkpoints, i, d)
  {
    hide PrerequisiteTable, NoRepeats, Successors;
    var requests, ids := CheckpointRequests(checkpoints), CheckpointIds(checkpoints);
    TableSuccessors(requests, i);
    forall d ensures d in Elements(ids[..i]) <==> IsEarlier(checkpoints, i, d) {
      if d in ids[..i] {
        var j :| 0 <= j < i && ids[..i][j] == d;
        assert checkpoints[j].id == d;
      }
      if IsEarlier(checkpoints, i, d) {
        var j :| 0 <= j < i && checkpoints[j].id == d;
        assert ids[..i][j] == d;
      }
    }
    assert forall d :: d in Elements(checkpoints[i].dependsOn) <==> d in checkpoints[i].dependsOn;
  }
}
