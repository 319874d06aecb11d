/** Static lint of a definition: dangling edges, nodes no static path leads to from the start node, nodes
    without a way out, and split branches from which no join can be reached. */
module Lint {
  import opened Core
  import opened Validation

  // ------------------------------------------------------------------ the static graph

  function EdgeTargets(transitions: seq<Transition>, from: NodeId): seq<NodeId> {
    if transitions == [] then []
    else (if transitions[0].from == from then [transitions[0].to] else []) + EdgeTargets(transitions[1..], from)
  }

  function BranchTargets(branches: seq<Branch>): (r: seq<NodeId>)
    ensures |r| == |branches| && forall i :: 0 <= i < |branches| ==> r[i] == branches[i].target
  {
    seq(|branches|, i requires 0 <= i < |branches| => branches[i].target)
  }

  /** Targets a node names: its edges, and those its own configuration carries. A ForEach names its template
      and its join in its configuration, but those are not followed. */
  function StaticTargets(def: Definition, node: Node): seq<NodeId> {
    EdgeTargets(def.transitions, node.id)
    + match node.config
      case ParallelSplit(branches) => branches
      case Condition(defaultTarget, branches) => [defaultTarget] + BranchTargets(branches)
      case EventWait(_, _, _) => if node.TimeoutTarget().Some? then [node.TimeoutTarget().value] else []
      case _ => []
  }

  predicate Exists(def: Definition, id: NodeId) {
    FindNode(def.nodes, id).Some?
  }

  predicate StaticEdge(def: Definition, a: NodeId, b: NodeId) {
    Exists(def, a) && Exists(def, b) && b in StaticTargets(def, FindNode(def.nodes, a).value)
  }

  predicate IsPath(def: Definition, path: seq<NodeId>) {
    |path| > 0 && forall k :: 0 <= k < |path| - 1 ==> StaticEdge(def, path[k], path[k + 1])
  }

  /** Some path of static edges leads from `a` to `b`. */
  ghost predicate Reaches(def: Definition, a: NodeId, b: NodeId) {
    exists path: seq<NodeId> :: IsPath(def, path) && path[0] == a && path[|path| - 1] == b
  }

  predicate IsJoin(def: Definition, id: NodeId) {
    Exists(def, id) && FindNode(def.nodes, id).value.config.ParallelJoin?
  }

  /** Some path of static edges leads from `a` to a join. */
  ghost predicate ReachesJoin(def: Definition, a: NodeId) {
    exists b :: Reaches(def, a, b) && IsJoin(def, b)
  }

  lemma ReachesItself(def: Definition, a: NodeId)
    ensures Reaches(def, a, a)
  {
    assert IsPath(def, [a]) && [a][0] == a;
  }

  lemma ReachesNext(def: Definition, a: NodeId, b: NodeId, c: NodeId)
    requires Reaches(def, a, b) && StaticEdge(def, b, c)
    ensures Reaches(def, a, c)
  {
    var path: seq<NodeId> :| IsPath(def, path) && path[0] == a && path[|path| - 1] == b;
    var longer := path + [c];
    forall k | 0 <= k < |longer| - 1 ensures StaticEdge(def, longer[k], longer[k + 1]) {
      if k < |path| - 1 {
        assert StaticEdge(def, path[k], path[k + 1]);
      }
    }
    assert IsPath(def, longer) && longer[0] == a && longer[|longer| - 1] == c;
  }

  /** A set closed under static edges contains whatever its members reach. */
  lemma {:induction false} ClosedContainsPath(def: Definition, seen: set<NodeId>, path: seq<NodeId>)
    requires forall a, b :: a in seen && StaticEdge(def, a, b) ==> b in seen
    requires IsPath(def, path) && path[0] in seen
    ensures path[|path| - 1] in seen
    decreases |path|
  {
    if |path| > 1 {
      assert StaticEdge(def, path[0], path[1]);
      forall k | 0 <= k < |path| - 2 ensures StaticEdge(def, path[1..][k], path[1..][k + 1]) {
        assert StaticEdge(def, path[k + 1], path[k + 2]);
      }
      ClosedContainsPath(def, seen, path[1..]);
    }
  }

  lemma ClosedContainsReachable(def: Definition, seen: set<NodeId>, a: NodeId, b: NodeId)
    requires forall x, y :: x in seen && StaticEdge(def, x, y) ==> y in seen
    requires a in seen && Reaches(def, a, b)
    ensures b in seen
  {
    var path: seq<NodeId> :| IsPath(def, path) && path[0] == a && path[|path| - 1] == b;
    ClosedContainsPath(def, seen, path);
  }

  // ------------------------------------------------------------------ the worklist

  /** The traversal so far: everything seen or stacked is reachable, and every edge out of a seen node leads to
      a node seen or stacked. */
  ghost predicate Traversal(def: Definition, start: NodeId, seen: set<NodeId>, stack: seq<NodeId>) {
    && (start in seen || start in stack)
    && (forall a :: a in seen || a in stack ==> Reaches(def, start, a) && (a == start || a in Ids(def.nodes)))
    && (forall a, b :: a in seen && StaticEdge(def, a, b) ==> b in seen || b in stack)
  }

  lemma ExistsInIds(def: Definition, id: NodeId)
    ensures Exists(def, id) <==> id in Ids(def.nodes)
  {
    FindNodeMisses(def.nodes, id);
  }

  /** Pushes the existing targets of a node not seen yet. */
  method PushTargets(def: Definition, targets: seq<NodeId>, seen: set<NodeId>, stack: seq<NodeId>)
    returns (r: seq<NodeId>)
    ensures forall x :: x in r <==> x in stack || (x in targets && Exists(def, x) && x !in seen)
  {
    r := stack;
    for i := 0 to |targets|
      invariant forall x :: x in r <==> x in stack || (x in targets[..i] && Exists(def, x) && x !in seen)
    {
      assert targets[..i + 1] == targets[..i] + [targets[i]];
      if Exists(def, targets[i]) && targets[i] !in seen {
        r := r + [targets[i]];
      }
    }
    assert targets[..|targets|] == targets;
  }

  lemma TraversalStep(def: Definition, start: NodeId, seen: set<NodeId>, stack: seq<NodeId>, cur: NodeId,
                      stack': seq<NodeId>)
    requires Traversal(def, start, seen, stack + [cur]) && cur !in seen
    requires forall x :: x in stack' <==> x in stack || (StaticEdge(def, cur, x) && x !in seen + {cur})
    ensures Traversal(def, start, seen + {cur}, stack')
  {
    forall a | a in seen + {cur} || a in stack'
      ensures Reaches(def, start, a) && (a == start || a in Ids(def.nodes))
    {
      if a !in seen && a != cur && a !in stack {
        ReachesNext(def, start, cur, a);
        ExistsInIds(def, a);
      } else {
        assert a in seen || a in stack + [cur];
      }
    }
    forall a, b | a in seen + {cur} && StaticEdge(def, a, b) ensures b in seen + {cur} || b in stack' {
      if a in seen {
        assert b in seen || b in stack + [cur];
      }
    }
  }

  lemma TraversalShrinks(def: Definition, start: NodeId, seen: set<NodeId>, cur: NodeId)
    requires cur !in seen && cur in Ids(def.nodes) + {start}
    ensures |Ids(def.nodes) + {start} - (seen + {cur})| < |Ids(def.nodes) + {start} - seen|
  {
    assert Ids(def.nodes) + {start} - (seen + {cur}) < Ids(def.nodes) + {start} - seen;
    SubsetSmaller(Ids(def.nodes) + {start} - (seen + {cur}), Ids(def.nodes) + {start} - seen);
  }

  lemma SubsetSmaller<T>(a: set<T>, b: set<T>)
    requires a < b
    ensures |a| < |b|
  {
    assert b == a + (b - a) && |b - a| > 0;
  }

  /** Nodes the worklist visits from a node: exactly those a path of static edges leads to. */
  method Reachable(def: Definition, start: NodeId) returns (seen: set<NodeId>)
    ensures forall b :: b in seen <==> Reaches(def, start, b)
  {
    seen := {};
    var stack := [start];
    ReachesItself(def, start);
    while stack != []
      invariant Traversal(def, start, seen, stack)
      decreases |Ids(def.nodes) + {start} - seen|, |stack|
    {
      var cur := stack[|stack| - 1];
      ghost var before := stack;
      stack := stack[..|stack| - 1];
      assert before == stack + [cur];
      if cur !in seen {
        TraversalShrinks(def, start, seen, cur);
        var found := FindNode(def.nodes, cur);
        var next := stack;
        if found.Some? {
          next := PushTargets(def, StaticTargets(def, found.value), seen + {cur}, stack);
        }
        TraversalStep(def, start, seen, stack, cur, next);
        seen, stack := seen + {cur}, next;
      }
    }
    forall b | Reaches(def, start, b) ensures b in seen {
      ClosedContainsReachable(def, seen, start, b);
    }
  }

  /** Whether a branch can get to a join: exactly when some path of static edges does. */
  method BranchReachesJoin(def: Definition, start: NodeId) returns (r: bool)
    ensures r <==> ReachesJoin(def, start)
  {
    var seen: set<NodeId> := {};
    var stack := [start];
    ReachesItself(def, start);
    while stack != []
      invariant Traversal(def, start, seen, stack)
      invariant forall a :: a in seen ==> !IsJoin(def, a)
      decreases |Ids(def.nodes) + {start} - seen|, |stack|
    {
      var cur := stack[|stack| - 1];
      ghost var before := stack;
      stack := stack[..|stack| - 1];
      assert before == stack + [cur];
      if cur !in seen {
        TraversalShrinks(def, start, seen, cur);
        var found := FindNode(def.nodes, cur);
        var next := stack;
        if found.Some? {
          if found.value.config.ParallelJoin? {
            assert Reaches(def, start, cur) && IsJoin(def, cur);
            return true;
          }
          next := PushTargets(def, StaticTargets(def, found.value), seen + {cur}, stack);
        }
        TraversalStep(def, start, seen, stack, cur, next);
        seen, stack := seen + {cur}, next;
      }
    }
    forall b | Reaches(def, start, b) ensures !IsJoin(def, b) {
      ClosedContainsReachable(def, seen, start, b);
    }
    return false;
  }

  // ------------------------------------------------------------------ findings

  datatype Finding =
    | DanglingEdge(id: NodeId)
    | UnreachableNode(id: NodeId)
    | DeadlockNode(id: NodeId)
    | ParallelUnclosed(split: NodeId, branch: NodeId)

  function Starts(nodes: seq<Node>): seq<NodeId> {
    if nodes == [] then []
    else (if nodes[0].config.Start? then [nodes[0].id] else []) + Starts(nodes[1..])
  }

  predicate Dangles(def: Definition, id: NodeId) {
    id !in Ids(def.nodes) && exists t :: t in def.transitions && (t.from == id || t.to == id)
  }

  /** With exactly one start node: a node of another kind no static path leads to from it. */
  ghost predicate Unreachable(def: Definition, id: NodeId) {
    && |Starts(def.nodes)| == 1
    && (exists n :: n in def.nodes && n.id == id && !n.config.Start?)
    && !Reaches(def, Starts(def.nodes)[0], id)
  }

  predicate NoWayOut(def: Definition, n: Node) {
    !n.config.Start? && !n.config.End? && StaticTargets(def, n) == []
  }

  predicate Stuck(def: Definition, id: NodeId) {
    exists n :: n in def.nodes && n.id == id && NoWayOut(def, n)
  }

  predicate Branches(n: Node, split: NodeId, branch: NodeId) {
    n.id == split && n.config.ParallelSplit? && branch in n.config.branchTargets
  }

  ghost predicate Unclosed(def: Definition, split: NodeId, branch: NodeId) {
    && (exists n :: n in def.nodes && Branches(n, split, branch))
    && branch in Ids(def.nodes)
    && !ReachesJoin(def, branch)
  }

  ghost predicate Justified(def: Definition, f: Finding) {
    match f
    case DanglingEdge(id) => Dangles(def, id)
    case UnreachableNode(id) => Unreachable(def, id)
    case DeadlockNode(id) => Stuck(def, id)
    case ParallelUnclosed(split, branch) => Unclosed(def, split, branch)
  }

  method DanglingEdges(def: Definition) returns (findings: seq<Finding>)
    ensures forall f :: f in findings <==> f.DanglingEdge? && Justified(def, f)
  {
    findings := [];
    for i := 0 to |def.transitions|
      invariant forall f :: f in findings <==>
                  f.DanglingEdge? && f.id !in Ids(def.nodes)
                  && exists j :: 0 <= j < i && (def.transitions[j].from == f.id || def.transitions[j].to == f.id)
    {
      var t := def.transitions[i];
      if t.from !in Ids(def.nodes) {
        findings := findings + [DanglingEdge(t.from)];
      }
      if t.to !in Ids(def.nodes) {
        findings := findings + [DanglingEdge(t.to)];
      }
    }
  }

  method UnreachableNodes(def: Definition) returns (findings: seq<Finding>)
    ensures forall f :: f in findings <==> f.UnreachableNode? && Justified(def, f)
  {
    findings := [];
    var starts := Starts(def.nodes);
    if |starts| != 1 {
      return;
    }
    var seen := Reachable(def, starts[0]);
    for i := 0 to |def.nodes|
      invariant forall f :: f in findings <==>
                  f.UnreachableNode? && !Reaches(def, starts[0], f.id)
                  && exists j :: 0 <= j < i && def.nodes[j].id == f.id && !def.nodes[j].config.Start?
    {
      var node := def.nodes[i];
      if !node.config.Start? && node.id !in seen {
        findings := findings + [UnreachableNode(node.id)];
      }
    }
  }

  method DeadlockNodes(def: Definition) returns (findings: seq<Finding>)
    ensures forall f :: f in findings <==> f.DeadlockNode? && Justified(def, f)
  {
    findings := [];
    for i := 0 to |def.nodes|
      invariant forall f :: f in findings <==>
                  f.DeadlockNode? && exists j :: 0 <= j < i && def.nodes[j].id == f.id && NoWayOut(def, def.nodes[j])
    {
      var node := def.nodes[i];
      if NoWayOut(def, node) {
        findings := findings + [DeadlockNode(node.id)];
      }
    }
  }

  method UnclosedBranches(def: Definition, split: NodeId, branches: seq<NodeId>) returns (findings: seq<Finding>)
    ensures forall f :: f in findings <==>
              f.ParallelUnclosed? && f.split == split && f.branch in branches
              && f.branch in Ids(def.nodes) && !ReachesJoin(def, f.branch)
  {
    findings := [];
    for i := 0 to |branches|
      invariant forall f :: f in findings <==>
                  f.ParallelUnclosed? && f.split == split && f.branch in branches[..i]
                  && f.branch in Ids(def.nodes) && !ReachesJoin(def, f.branch)
    {
      assert branches[..i + 1] == branches[..i] + [branches[i]];
      if branches[i] in Ids(def.nodes) {
        var closes := BranchReachesJoin(def, branches[i]);
        if !closes {
          findings := findings + [ParallelUnclosed(split, branches[i])];
        }
      }
    }
    assert branches[..|branches|] == branches;
  }

  method UnclosedSplits(def: Definition) returns (findings: seq<Finding>)
    ensures forall f :: f in findings <==> f.ParallelUnclosed? && Justified(def, f)
  {
    findings := [];
    for i := 0 to |def.nodes|
      invariant forall f :: f in findings <==>
                  f.ParallelUnclosed? && f.branch in Ids(def.nodes) && !ReachesJoin(def, f.branch)
                  && exists j :: 0 <= j < i && Branches(def.nodes[j], f.split, f.branch)
    {
      var node := def.nodes[i];
      if node.config.ParallelSplit? {
        var more := UnclosedBranches(def, node.id, node.config.branchTargets);
        findings := findings + more;
      }
    }
  }

  /** Lint exactness: a finding is reported exactly when the graph justifies it. */
  method LintDefinition(def: Definition) returns (findings: seq<Finding>)
    ensures forall f :: f in findings <==> Justified(def, f)
  {
    var dangling := DanglingEdges(def);
    var unreachable := UnreachableNodes(def);
    var deadlocks := DeadlockNodes(def);
    var unclosed := UnclosedSplits(def);
    findings := dangling + unreachable + deadlocks + unclosed;
  }
}
