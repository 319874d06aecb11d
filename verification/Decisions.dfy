/** Advance decisions by what the guards and edges say, without the resolver's own vocabulary: which branch a Condition
    takes, which path of nodes a decision follows, and where it lands. */
module Decisions {
  import opened Core
  import opened Walk
  import opened Routing

  // ------------------------------------------------------------------ one hop

  /** The first `n` guards are false. */
  predicate AllFalse(cel: Cel, ctx: Context, branches: seq<Branch>, n: nat) {
    n <= |branches| && forall j :: 0 <= j < n ==> cel.guard(branches[j].guard, ctx) == Some(false)
  }

  /** Branch `i` is the first whose guard is not false. */
  predicate FirstNotFalse(cel: Cel, ctx: Context, branches: seq<Branch>, i: nat) {
    i < |branches| && AllFalse(cel, ctx, branches, i) && cel.guard(branches[i].guard, ctx) != Some(false)
  }

  /** The branch taken is the first whose guard is true; it is the default if all are false, and there is none if the
      first guard that is not false fails. */
  lemma {:induction false} PickBranchExactly(cel: Cel, ctx: Context, branches: seq<Branch>, defaultTarget: NodeId)
    ensures var r := PickBranch(cel, ctx, branches, defaultTarget);
            && (AllFalse(cel, ctx, branches, |branches|) ==> r == Some(defaultTarget))
            && forall i: nat :: FirstNotFalse(cel, ctx, branches, i) ==>
                 match cel.guard(branches[i].guard, ctx)
                 case Some(_) => r == Some(branches[i].target)
                 case None => r == None
  {
    if branches != [] && cel.guard(branches[0].guard, ctx) == Some(false) {
      var rest := branches[1..];
      PickBranchExactly(cel, ctx, rest, defaultTarget);
      if AllFalse(cel, ctx, branches, |branches|) {
        assert AllFalse(cel, ctx, rest, |rest|);
      }
      forall i: nat | FirstNotFalse(cel, ctx, branches, i) ensures FirstNotFalse(cel, ctx, rest, i - 1) {
        assert rest[i - 1] == branches[i];
      }
    }
  }

  /** One of the two: all guards are false, or some guard is the first that is not. */
  lemma {:induction false} SomeNotFalse(cel: Cel, ctx: Context, branches: seq<Branch>, n: nat)
    requires n <= |branches|
    ensures AllFalse(cel, ctx, branches, n) || exists i :: 0 <= i < n && FirstNotFalse(cel, ctx, branches, i)
  {
    if n > 0 {
      SomeNotFalse(cel, ctx, branches, n - 1);
      if AllFalse(cel, ctx, branches, n - 1) && !AllFalse(cel, ctx, branches, n) {
        assert FirstNotFalse(cel, ctx, branches, n - 1);
      }
    }
  }

  /** The first edge out of `from` on the signal leads to `to`. */
  predicate FirstEdgeTo(ts: seq<Transition>, from: NodeId, signal: SignalType, to: NodeId) {
    exists k :: 0 <= k < |ts| && FirstEdgeAt(ts, from, signal, k) && ts[k].to == to
  }

  predicate FirstEdgeAt(ts: seq<Transition>, from: NodeId, signal: SignalType, k: nat)
    requires k < |ts|
  {
    && ts[k].from == from && ts[k].onSignal == signal
    && forall j :: 0 <= j < k ==> !(ts[j].from == from && ts[j].onSignal == signal)
  }

  lemma {:induction false} FindsFirst(ts: seq<Transition>, from: NodeId, signal: SignalType, k: nat)
    requires k < |ts| && FirstEdgeAt(ts, from, signal, k)
    ensures FindTransition(ts, from, signal) == Some(ts[k])
  {
    if k > 0 {
      assert ts[1..][k - 1] == ts[k];
      FindsFirst(ts[1..], from, signal, k - 1);
    }
  }

  lemma {:induction false} FoundIsFirst(ts: seq<Transition>, from: NodeId, signal: SignalType) returns (k: nat)
    requires FindTransition(ts, from, signal).Some?
    ensures k < |ts| && FirstEdgeAt(ts, from, signal, k) && FindTransition(ts, from, signal) == Some(ts[k])
  {
    k := 0;
    if !(ts[0].from == from && ts[0].onSignal == signal) {
      k := FoundIsFirst(ts[1..], from, signal);
      forall j | 0 <= j < k + 1 ensures !(ts[j].from == from && ts[j].onSignal == signal) {
        assert j > 0 ==> ts[j] == ts[1..][j - 1];
      }
      k := k + 1;
    }
  }

  lemma EdgeFound(ts: seq<Transition>, from: NodeId, signal: SignalType, to: NodeId)
    ensures FirstEdgeTo(ts, from, signal, to) <==>
            FindTransition(ts, from, signal).Some? && FindTransition(ts, from, signal).value.to == to
  {
    if FindTransition(ts, from, signal).Some? {
      var k := FoundIsFirst(ts, from, signal);
      if FirstEdgeTo(ts, from, signal, to) {
        var j :| 0 <= j < |ts| && FirstEdgeAt(ts, from, signal, j) && ts[j].to == to;
        FindsFirst(ts, from, signal, j);
      }
    } else {
      FindTransitionMisses(ts, from, signal);
    }
  }

  /** Where a Condition leads: the first branch whose guard is true, or the default if all are false. */
  predicate BranchesTo(cel: Cel, ctx: Context, branches: seq<Branch>, defaultTarget: NodeId, b: NodeId) {
    || (AllFalse(cel, ctx, branches, |branches|) && b == defaultTarget)
    || exists i :: 0 <= i < |branches| && AllFalse(cel, ctx, branches, i)
                   && cel.guard(branches[i].guard, ctx) == Some(true) && branches[i].target == b
  }

  lemma BranchTaken(cel: Cel, ctx: Context, branches: seq<Branch>, defaultTarget: NodeId, b: NodeId)
    ensures BranchesTo(cel, ctx, branches, defaultTarget, b) <==>
            PickBranch(cel, ctx, branches, defaultTarget) == Some(b)
  {
    PickBranchExactly(cel, ctx, branches, defaultTarget);
    SomeNotFalse(cel, ctx, branches, |branches|);
    if i :| 0 <= i < |branches| && FirstNotFalse(cel, ctx, branches, i) {
      forall j: nat | j < |branches| && AllFalse(cel, ctx, branches, j)
                      && cel.guard(branches[j].guard, ctx) == Some(true)
        ensures j == i
      {
        OneIsFirst(cel, ctx, branches, i, j);
      }
    }
  }

  lemma OneIsFirst(cel: Cel, ctx: Context, branches: seq<Branch>, i: nat, j: nat)
    requires FirstNotFalse(cel, ctx, branches, i) && FirstNotFalse(cel, ctx, branches, j)
    ensures i == j
  {
  }

  /** A routing node passes the token on: a Merge along its first APPROVED edge, a Condition by its guards. */
  predicate Hops(def: Definition, cel: Cel, ctx: Context, a: NodeId, b: NodeId) {
    FindNode(def.nodes, a).Some? &&
    match FindNode(def.nodes, a).value.config
    case Merge => FirstEdgeTo(def.transitions, a, SignalType.Approved, b)
    case Condition(defaultTarget, branches) => BranchesTo(cel, ctx, branches, defaultTarget, b)
    case _ => false
  }

  /** The walk's next node, exactly. */
  lemma NextHopExactly(def: Definition, cel: Cel, ctx: Context, a: NodeId, b: NodeId)
    ensures NextHop(def, cel, ctx, a) == Some(b) <==> Hops(def, cel, ctx, a, b)
  {
    if FindNode(def.nodes, a).Some? {
      match FindNode(def.nodes, a).value.config
      case Merge => EdgeFound(def.transitions, a, SignalType.Approved, b);
      case Condition(defaultTarget, branches) => BranchTaken(cel, ctx, branches, defaultTarget, b);
      case _ =>
    }
  }

  // ------------------------------------------------------------------ paths

  predicate IsMerge(def: Definition, id: NodeId) {
    FindNode(def.nodes, id).Some? && FindNode(def.nodes, id).value.config.Merge?
  }

  predicate IsRouting(def: Definition, id: NodeId) {
    FindNode(def.nodes, id).Some? && FindNode(def.nodes, id).value.Routes()
  }

  function MergesIn(def: Definition, path: seq<NodeId>): seq<NodeId> {
    if path == [] then [] else (if IsMerge(def, path[0]) then [path[0]] else []) + MergesIn(def, path[1..])
  }

  predicate IsPath(def: Definition, cel: Cel, ctx: Context, path: seq<NodeId>) {
    path != [] && forall k :: 0 <= k < |path| - 1 ==> Hops(def, cel, ctx, path[k], path[k + 1])
  }

  function Last(path: seq<NodeId>): NodeId
    requires path != []
  {
    path[|path| - 1]
  }

  /** A path of at most eight hops from the target to a node that passes nothing on. */
  predicate LeadsAlong(def: Definition, cel: Cel, ctx: Context, target: NodeId, path: seq<NodeId>) {
    && IsPath(def, cel, ctx, path) && path[0] == target && |path| <= MAX_RESOLVE_DEPTH + 1
    && !IsRouting(def, Last(path))
  }

  lemma {:induction false} PathIsWalk(def: Definition, cel: Cel, ctx: Context, path: seq<NodeId>)
    requires IsPath(def, cel, ctx, path)
    ensures WalkTo(RouterOf(def, cel, ctx), path[0], |path| - 1) == Some(Last(path))
    ensures MergesOn(RouterOf(def, cel, ctx), path[0], |path| - 1) == MergesIn(def, path[..|path| - 1])
    decreases |path|
  {
    if |path| > 1 {
      var rest := path[1..];
      forall k | 0 <= k < |rest| - 1 ensures Hops(def, cel, ctx, rest[k], rest[k + 1]) {
        assert Hops(def, cel, ctx, path[k + 1], path[k + 1 + 1]);
      }
      assert Hops(def, cel, ctx, path[0], path[0 + 1]);
      NextHopExactly(def, cel, ctx, path[0], path[1]);
      PathIsWalk(def, cel, ctx, rest);
      assert path[..|path| - 1][1..] == rest[..|rest| - 1];
    }
  }

  lemma {:induction false} WalkIsPath(def: Definition, cel: Cel, ctx: Context, id: NodeId, n: nat)
    returns (path: seq<NodeId>)
    requires WalkTo(RouterOf(def, cel, ctx), id, n).Some?
    ensures |path| == n + 1 && path[0] == id && IsPath(def, cel, ctx, path)
    ensures WalkTo(RouterOf(def, cel, ctx), id, n) == Some(Last(path))
    decreases n
  {
    path := [id];
    if n > 0 {
      var next := NextHop(def, cel, ctx, id).value;
      NextHopExactly(def, cel, ctx, id, next);
      var rest := WalkIsPath(def, cel, ctx, next, n - 1);
      path := [id] + rest;
      forall k | 0 <= k < |path| - 1 ensures Hops(def, cel, ctx, path[k], path[k + 1]) {
        assert k > 0 ==> Hops(def, cel, ctx, rest[k - 1], rest[k - 1 + 1]);
      }
    }
  }

  /** What the resolver finds, by guards and edges alone: it lands where the path from the target ends, if a path of at
      most eight hops ends at a node that does not route, leaving the Merge nodes on it and the ForEach at its end in
      the trace; and it errs if there is no such path. */
  lemma ResolvesAlong(def: Definition, cel: Cel, ctx: Context, target: NodeId)
    ensures var (outcome, trace) := Resolve(def, cel, ctx, target);
            && (forall path :: LeadsAlong(def, cel, ctx, target, path) ==>
                  && outcome == Landing(def, cel, ctx, Last(path))
                  && trace == ResolveTrace(MergesIn(def, path[..|path| - 1]), LandingFanOut(def, Last(path))))
            && ((forall path :: !LeadsAlong(def, cel, ctx, target, path)) ==> outcome.Error?)
  {
    var w := RouterOf(def, cel, ctx);
    ResolverExact(def, cel, ctx, target);
    forall path | LeadsAlong(def, cel, ctx, target, path)
      ensures StopsAfter(w, target, |path| - 1) && WalkTo(w, target, |path| - 1) == Some(Last(path))
      ensures MergesOn(w, target, |path| - 1) == MergesIn(def, path[..|path| - 1])
    {
      PathIsWalk(def, cel, ctx, path);
    }
    if StopsWithin(w, target, MAX_RESOLVE_DEPTH) {
      var n: nat :| n <= MAX_RESOLVE_DEPTH && StopsAfter(w, target, n);
      var path := WalkIsPath(def, cel, ctx, target, n);
      assert LeadsAlong(def, cel, ctx, target, path);
    }
  }

  // ------------------------------------------------------------------ the decision for a signal

  predicate NoEdge(ts: seq<Transition>, from: NodeId, signal: SignalType) {
    forall t :: t in ts ==> !(t.from == from && t.onSignal == signal)
  }

  /** A decision that follows an edge resolves its target. */
  lemma DecisionAlong(def: Definition, cel: Cel, ctx: Context, at: NodeId, signal: SignalType, target: NodeId,
                      path: seq<NodeId>)
    requires signal.Approved? || signal.Completed? || signal.EventReceived?
    requires FirstEdgeTo(def.transitions, at, signal, target) && LeadsAlong(def, cel, ctx, target, path)
    ensures DecideAdvance(def, cel, ctx, at, signal)
         == (Landing(def, cel, ctx, Last(path)),
             ResolveTrace(MergesIn(def, path[..|path| - 1]), LandingFanOut(def, Last(path))))
  {
    EdgeFound(def.transitions, at, signal, target);
    ResolvesAlong(def, cel, ctx, target);
  }

  /** It errs where there is no edge to follow, or no path from its target ends in time. */
  lemma DecisionErrs(def: Definition, cel: Cel, ctx: Context, at: NodeId, signal: SignalType)
    requires signal.Approved? || signal.Completed? || signal.EventReceived?
    requires forall target, path ::
               FirstEdgeTo(def.transitions, at, signal, target) ==> !LeadsAlong(def, cel, ctx, target, path)
    ensures DecideAdvance(def, cel, ctx, at, signal).0.Error?
  {
    var edge := FindTransition(def.transitions, at, signal);
    if edge.Some? {
      EdgeFound(def.transitions, at, signal, edge.value.to);
      ResolvesAlong(def, cel, ctx, edge.value.to);
    }
  }

  /** A rejection completes as rejected wherever it is given. A hand-back without a RETURNED edge completes as returned;
      along such an edge it hands back to the node at the end of the path, and errs if no path ends in time. */
  lemma RefusalsAlong(def: Definition, cel: Cel, ctx: Context, at: NodeId)
    ensures DecideAdvance(def, cel, ctx, at, SignalType.Rejected) == (Complete(WorkflowResult.Rejected), EMPTY_TRACE)
    ensures NoEdge(def.transitions, at, SignalType.Returned) ==>
              DecideAdvance(def, cel, ctx, at, SignalType.Returned) == (Complete(WorkflowResult.Returned), EMPTY_TRACE)
    ensures forall target, path ::
              FirstEdgeTo(def.transitions, at, SignalType.Returned, target)
                  && LeadsAlong(def, cel, ctx, target, path) ==>
                var landing := Landing(def, cel, ctx, Last(path));
                DecideAdvance(def, cel, ctx, at, SignalType.Returned).0
                == if landing.Advance? then Rework(landing.target, landing.role) else Error
    ensures forall target ::
              FirstEdgeTo(def.transitions, at, SignalType.Returned, target)
              && (forall path :: !LeadsAlong(def, cel, ctx, target, path)) ==>
                DecideAdvance(def, cel, ctx, at, SignalType.Returned).0.Error?
  {
    FindTransitionMisses(def.transitions, at, SignalType.Returned);
    forall target | FirstEdgeTo(def.transitions, at, SignalType.Returned, target)
                    && (forall path :: !LeadsAlong(def, cel, ctx, target, path))
      ensures DecideAdvance(def, cel, ctx, at, SignalType.Returned).0.Error?
    {
      EdgeFound(def.transitions, at, SignalType.Returned, target);
      ResolvesAlong(def, cel, ctx, target);
    }
    forall target, path | FirstEdgeTo(def.transitions, at, SignalType.Returned, target)
                          && LeadsAlong(def, cel, ctx, target, path)
      ensures var landing := Landing(def, cel, ctx, Last(path));
              DecideAdvance(def, cel, ctx, at, SignalType.Returned).0
              == if landing.Advance? then Rework(landing.target, landing.role) else Error
    {
      EdgeFound(def.transitions, at, SignalType.Returned, target);
      ResolvesAlong(def, cel, ctx, target);
    }
  }

  /** A deadline resolves the target its node declares. */
  lemma DeadlineAlong(def: Definition, cel: Cel, ctx: Context, node: Node, path: seq<NodeId>)
    requires FindNode(def.nodes, node.id) == Some(node) && node.config.EventWait?
    requires node.config.timeoutTo.Some? && node.config.timeoutTo.value != ""
    requires LeadsAlong(def, cel, ctx, node.config.timeoutTo.value, path)
    ensures DecideTimeout(def, cel, ctx, node.id)
         == (Landing(def, cel, ctx, Last(path)),
             ResolveTrace(MergesIn(def, path[..|path| - 1]), LandingFanOut(def, Last(path))))
  {
    ResolvesAlong(def, cel, ctx, node.config.timeoutTo.value);
  }
}
