/** What acceptance by the publish gate buys at run time: when an advance decision on the regular
    completion signal of a node can still err, and where the branches of a split end up. */
module Progress {
  import opened Core
  import opened Walk
  import opened Routing
  import opened Validation

  /** A Condition whose guards fail is met within `bound` hops. */
  predicate GuardFails(def: Definition, cel: Cel, ctx: Context, target: NodeId, bound: int) {
    exists n: nat :: n <= bound && StuckAt(def, cel, ctx, target, n)
  }

  predicate StuckAt(def: Definition, cel: Cel, ctx: Context, target: NodeId, n: nat) {
    var here := WalkTo(RouterOf(def, cel, ctx), target, n);
    && here.Some?
    && FindNode(def.nodes, here.value).Some?
    && var c := FindNode(def.nodes, here.value).value.config;
       c.Condition? && PickBranch(cel, ctx, c.branches, c.defaultTarget).None?
  }

  /** The walk cycles or is too long: it is still routing after the last hop allowed. */
  predicate TooLong(def: Definition, cel: Cel, ctx: Context, target: NodeId) {
    WalkTo(RouterOf(def, cel, ctx), target, MAX_RESOLVE_DEPTH + 1).Some?
  }

  /** Stopping here errs even in an accepted definition: the Start node, or a ForEach whose items cannot
      be evaluated or exceed its cap. */
  predicate DeadEnd(def: Definition, cel: Cel, ctx: Context, id: NodeId) {
    FindNode(def.nodes, id).Some? &&
    match FindNode(def.nodes, id).value.config
    case Start => true
    case ForEach(path, _, _, cap) =>
      cel.items(path, ctx).None? || (Positive(cap).Some? && |cel.items(path, ctx).value| > cap.value)
    case _ => false
  }

  predicate EndsDead(def: Definition, cel: Cel, ctx: Context, target: NodeId) {
    exists n: nat :: n <= MAX_RESOLVE_DEPTH && StopsAfter(RouterOf(def, cel, ctx), target, n)
                     && DeadEnd(def, cel, ctx, WalkTo(RouterOf(def, cel, ctx), target, n).value)
  }

  /** The only ways an accepted definition leaves a transition target unresolved. */
  predicate Unresolvable(def: Definition, cel: Cel, ctx: Context, target: NodeId) {
    || GuardFails(def, cel, ctx, target, MAX_RESOLVE_DEPTH)
    || TooLong(def, cel, ctx, target)
    || EndsDead(def, cel, ctx, target)
  }

  // ------------------------------------------------------------------ lookups in accepted definitions

  lemma {:induction false} KnownIsFound(nodes: seq<Node>, id: NodeId)
    requires id in Ids(nodes)
    ensures FindNode(nodes, id).Some?
  {
    FindNodeMisses(nodes, id);
  }

  lemma FoundIsValid(def: Definition, cel: Cel, id: NodeId)
    requires ValidDefinition(def, cel) && FindNode(def.nodes, id).Some?
    ensures NodeValid(def, cel, FindNode(def.nodes, id).value)
  {
    var node := FindNode(def.nodes, id).value;
    var i :| 0 <= i < |def.nodes| && def.nodes[i] == node;
  }

  lemma EdgeIsFound(transitions: seq<Transition>, from: NodeId, signal: SignalType)
    ensures HasEdge(transitions, from, signal) <==> FindTransition(transitions, from, signal).Some?
  {
    FindTransitionMisses(transitions, from, signal);
  }

  lemma {:induction false} OutgoingFindsEdge(transitions: seq<Transition>, from: NodeId, signal: SignalType)
    requires Outgoing(transitions, from, signal) != []
    ensures FindTransition(transitions, from, signal) == Some(Outgoing(transitions, from, signal)[0])
  {
    if !(transitions[0].from == from && transitions[0].onSignal == signal) {
      OutgoingFindsEdge(transitions[1..], from, signal);
    }
  }

  lemma {:induction false} PickBranchTargets(cel: Cel, ctx: Context, branches: seq<Branch>, defaultTarget: NodeId)
    ensures var r := PickBranch(cel, ctx, branches, defaultTarget);
            r.Some? ==> r.value == defaultTarget || exists i :: 0 <= i < |branches| && branches[i].target == r.value
  {
    if branches != [] && cel.guard(branches[0].guard, ctx) == Some(false) {
      PickBranchTargets(cel, ctx, branches[1..], defaultTarget);
      var r := PickBranch(cel, ctx, branches[1..], defaultTarget);
      if r.Some? && r.value != defaultTarget {
        var i :| 0 <= i < |branches[1..]| && branches[1..][i].target == r.value;
        assert branches[i + 1].target == r.value;
      }
    }
  }

  lemma TransitionTargetKnown(def: Definition, cel: Cel, t: Transition)
    requires ValidDefinition(def, cel) && t in def.transitions
    ensures t.to in Ids(def.nodes)
  {
    var i :| 0 <= i < |def.transitions| && def.transitions[i] == t;
  }

  lemma MergeHops(def: Definition, cel: Cel, ctx: Context, id: NodeId)
    requires ValidDefinition(def, cel)
    requires FindNode(def.nodes, id).Some? && FindNode(def.nodes, id).value.config.Merge?
    ensures NextHop(def, cel, ctx, id).Some? && NextHop(def, cel, ctx, id).value in Ids(def.nodes)
  {
    FoundIsValid(def, cel, id);
    assert MergeValid(def, FindNode(def.nodes, id).value);
    OutgoingFindsEdge(def.transitions, id, SignalType.Approved);
    TransitionTargetKnown(def, cel, FindTransition(def.transitions, id, SignalType.Approved).value);
  }

  lemma ConditionHops(def: Definition, cel: Cel, ctx: Context, id: NodeId)
    requires ValidDefinition(def, cel)
    requires FindNode(def.nodes, id).Some? && FindNode(def.nodes, id).value.config.Condition?
    ensures var c := FindNode(def.nodes, id).value.config;
            && NextHop(def, cel, ctx, id) == PickBranch(cel, ctx, c.branches, c.defaultTarget)
            && (NextHop(def, cel, ctx, id).Some? ==> NextHop(def, cel, ctx, id).value in Ids(def.nodes))
  {
    FoundIsValid(def, cel, id);
    var c := FindNode(def.nodes, id).value.config;
    assert BranchesValid(def, cel, c.branches);
    PickBranchTargets(cel, ctx, c.branches, c.defaultTarget);
  }

  /** A routing node of an accepted definition has a successor unless its guards fail, and that
      successor exists. */
  lemma HopStaysKnown(def: Definition, cel: Cel, ctx: Context, id: NodeId)
    requires ValidDefinition(def, cel) && RouterOf(def, cel, ctx).routes(id)
    ensures var node := FindNode(def.nodes, id).value;
            NextHop(def, cel, ctx, id).None? ==>
              node.config.Condition? && PickBranch(cel, ctx, node.config.branches, node.config.defaultTarget).None?
    ensures NextHop(def, cel, ctx, id).Some? ==> NextHop(def, cel, ctx, id).value in Ids(def.nodes)
  {
    if FindNode(def.nodes, id).value.config.Merge? {
      MergeHops(def, cel, ctx, id);
    } else {
      ConditionHops(def, cel, ctx, id);
    }
  }

  /** A walk that starts at a known node stays among known nodes. */
  lemma {:induction false} WalkStaysKnown(def: Definition, cel: Cel, ctx: Context, target: NodeId, n: nat)
    requires ValidDefinition(def, cel) && target in Ids(def.nodes)
    requires WalkTo(RouterOf(def, cel, ctx), target, n).Some?
    ensures WalkTo(RouterOf(def, cel, ctx), target, n).value in Ids(def.nodes)
    decreases n
  {
    if n > 0 {
      HopStaysKnown(def, cel, ctx, target);
      WalkStaysKnown(def, cel, ctx, NextHop(def, cel, ctx, target).value, n - 1);
    }
  }

  /** Within `bound` hops a walk stops, or meets failing guards, or is still routing one hop later. */
  lemma {:induction false} WalkTrichotomy(def: Definition, cel: Cel, ctx: Context, target: NodeId, bound: nat)
    requires ValidDefinition(def, cel)
    ensures !StopsWithin(RouterOf(def, cel, ctx), target, bound) <==>
            GuardFails(def, cel, ctx, target, bound) || WalkTo(RouterOf(def, cel, ctx), target, bound + 1).Some?
    decreases bound
  {
    var w := RouterOf(def, cel, ctx);
    if !w.routes(target) {
      assert StopsAfter(w, target, 0);
      forall n: nat ensures !StuckAt(def, cel, ctx, target, n) {}
    } else {
      HopStaysKnown(def, cel, ctx, target);
      if w.hop(target).None? {
        assert StuckAt(def, cel, ctx, target, 0);
        forall n: nat ensures !StopsAfter(w, target, n) {}
      } else {
        var next := w.hop(target).value;
        forall n: nat | n > 0
          ensures WalkTo(w, target, n) == WalkTo(w, next, n - 1)
          ensures StopsAfter(w, target, n) <==> StopsAfter(w, next, n - 1)
          ensures StuckAt(def, cel, ctx, target, n) <==> StuckAt(def, cel, ctx, next, n - 1)
        {}
        forall n: nat
          ensures StopsAfter(w, next, n) ==> StopsAfter(w, target, n + 1)
          ensures StuckAt(def, cel, ctx, next, n) ==> StuckAt(def, cel, ctx, target, n + 1)
        {
          assert WalkTo(w, target, n + 1) == WalkTo(w, next, n);
        }
        assert !StopsAfter(w, target, 0) && !StuckAt(def, cel, ctx, target, 0);
        if bound > 0 {
          WalkTrichotomy(def, cel, ctx, next, bound - 1);
        } else {
          assert WalkTo(w, target, 1) == Some(next);
        }
      }
    }
  }

  // ------------------------------------------------------------------ landings

  lemma {:induction false} SplitTargetsExist(def: Definition, branches: seq<NodeId>)
    requires forall i :: 0 <= i < |branches| ==> SplitBranchValid(def, branches[i])
    ensures var r := SplitTargets(def.nodes, branches);
            && r.Some? && |r.value| == |branches|
            && forall i :: 0 <= i < |branches| ==>
                 && r.value[i].node == branches[i]
                 && FindNode(def.nodes, branches[i]).Some?
                 && r.value[i].activityType == InstantiatedType(FindNode(def.nodes, branches[i]).value.config)
                 && r.value[i].item.None?
  {
    if branches != [] {
      SplitTargetsExist(def, branches[1..]);
    }
  }

  /** Landing on a non-routing node of an accepted definition errs only at a dead end. */
  lemma LandingErrs(def: Definition, cel: Cel, ctx: Context, id: NodeId)
    requires ValidDefinition(def, cel) && id in Ids(def.nodes) && !RouterOf(def, cel, ctx).routes(id)
    ensures Landing(def, cel, ctx, id).Error? <==> DeadEnd(def, cel, ctx, id)
  {
    KnownIsFound(def.nodes, id);
    FoundIsValid(def, cel, id);
    var node := FindNode(def.nodes, id).value;
    if node.config.ParallelSplit? {
      SplitTargetsExist(def, node.config.branchTargets);
    }
  }

  lemma ResolveErrs(def: Definition, cel: Cel, ctx: Context, target: NodeId)
    requires ValidDefinition(def, cel) && target in Ids(def.nodes)
    ensures Resolve(def, cel, ctx, target).0.Error? <==> Unresolvable(def, cel, ctx, target)
  {
    var w := RouterOf(def, cel, ctx);
    ResolverExact(def, cel, ctx, target);
    WalkTrichotomy(def, cel, ctx, target, MAX_RESOLVE_DEPTH);
    if StopsWithin(w, target, MAX_RESOLVE_DEPTH) {
      var n: nat :| n <= MAX_RESOLVE_DEPTH && StopsAfter(w, target, n);
      WalkStaysKnown(def, cel, ctx, target, n);
      LandingErrs(def, cel, ctx, WalkTo(w, target, n).value);
      EndsDeadAt(def, cel, ctx, target, n);
    }
  }

  /** A walk that stops ends dead exactly if the node it stops at does. */
  lemma EndsDeadAt(def: Definition, cel: Cel, ctx: Context, target: NodeId, n: nat)
    requires n <= MAX_RESOLVE_DEPTH && StopsAfter(RouterOf(def, cel, ctx), target, n)
    ensures EndsDead(def, cel, ctx, target)
            <==> DeadEnd(def, cel, ctx, WalkTo(RouterOf(def, cel, ctx), target, n).value)
  {
    forall m: nat | StopsAfter(RouterOf(def, cel, ctx), target, m) ensures m == n {
      StopsOnce(RouterOf(def, cel, ctx), target, m, n);
    }
  }

  /** Acceptance gives every node its completion edge, an EventWait with a timeout target excepted. */
  lemma CompletionEdgeExists(def: Definition, cel: Cel, node: Node, signal: SignalType)
    requires ValidDefinition(def, cel) && node in def.nodes
    requires CompletionSignal(node.config) == Some(signal) || (node.config.ParallelJoin? && signal.Approved?)
    ensures FindTransition(def.transitions, node.id, signal).None? ==>
              node.config.EventWait? && node.TimeoutTarget().Some?
  {
    FindNodeIsNode(def.nodes, node);
    FoundIsValid(def, cel, node.id);
    EdgeIsFound(def.transitions, node.id, signal);
  }

  lemma DecisionFollows(def: Definition, cel: Cel, ctx: Context, from: NodeId, signal: SignalType)
    requires IsJoinIncoming(signal)
    ensures var edge := FindTransition(def.transitions, from, signal);
            DecideAdvance(def, cel, ctx, from, signal).0
            == if edge.None? then Error else Resolve(def, cel, ctx, edge.value.to).0
  {
  }

  /** Acceptance implies progress: on the completion signal of an activity node, or past a satisfied
      join, the decision of an accepted definition errs exactly when the node is an EventWait declared
      with a timeout only, or its edge leads into failing guards, a routing walk that cycles or exceeds
      the depth bound, the Start node, or a ForEach that cannot fan out. */
  lemma AcceptanceImpliesProgress(def: Definition, cel: Cel, ctx: Context, node: Node, signal: SignalType)
    requires ValidDefinition(def, cel) && node in def.nodes
    requires CompletionSignal(node.config) == Some(signal) || (node.config.ParallelJoin? && signal.Approved?)
    ensures var edge := FindTransition(def.transitions, node.id, signal);
            && (edge.None? ==> node.config.EventWait? && node.TimeoutTarget().Some?)
            && (DecideAdvance(def, cel, ctx, node.id, signal).0.Error? <==>
                  edge.None? || Unresolvable(def, cel, ctx, edge.value.to))
  {
    CompletionEdgeExists(def, cel, node, signal);
    DecisionFollows(def, cel, ctx, node.id, signal);
    var edge := FindTransition(def.transitions, node.id, signal);
    if edge.Some? {
      TransitionTargetKnown(def, cel, edge.value);
      ResolveErrs(def, cel, ctx, edge.value.to);
    }
  }

  /** The same for a deadline: in an accepted definition it errs exactly when no target is declared or
      the target does not resolve. */
  lemma AcceptedTimeoutProgress(def: Definition, cel: Cel, ctx: Context, node: Node)
    requires ValidDefinition(def, cel) && node in def.nodes && node.config.EventWait?
    ensures DecideTimeout(def, cel, ctx, node.id).0.Error? <==>
            node.TimeoutTarget().None? || Unresolvable(def, cel, ctx, node.TimeoutTarget().value)
  {
    FindNodeIsNode(def.nodes, node);
    FoundIsValid(def, cel, node.id);
    if node.TimeoutTarget().Some? {
      ResolveErrs(def, cel, ctx, node.TimeoutTarget().value);
    }
  }

  /** An edge straight into a join resolves to that join and leaves nothing in the trace. */
  lemma EdgeIntoJoin(def: Definition, cel: Cel, ctx: Context, from: NodeId, signal: SignalType, join: NodeId)
    requires IsJoinIncoming(signal)
    requires FindTransition(def.transitions, from, signal).Some?
    requires FindTransition(def.transitions, from, signal).value.to == join
    requires FindNode(def.nodes, join).Some? && FindNode(def.nodes, join).value.config.ParallelJoin?
    ensures DecideAdvance(def, cel, ctx, from, signal) == (Advance(join, None), EMPTY_TRACE)
  {
  }

  lemma BranchConverges(def: Definition, cel: Cel, ctx: Context, branch: NodeId, join: NodeId)
    requires SplitBranchValid(def, branch) && BranchJoin(def, branch) == Some(join)
    ensures var c := FindNode(def.nodes, branch).value.config;
            DecideAdvance(def, cel, ctx, branch, CompletionSignal(c).value) == (Advance(join, None), EMPTY_TRACE)
  {
    EdgeIntoJoin(def, cel, ctx, branch, CompletionSignal(FindNode(def.nodes, branch).value.config).value, join);
  }

  /** A fan-out target that is a branch's own activity and whose completion advances to `join`. */
  predicate Converges(def: Definition, cel: Cel, ctx: Context, branch: NodeId, target: ParallelTarget, join: NodeId) {
    && target.node == branch
    && FindNode(def.nodes, branch).Some?
    && var c := FindNode(def.nodes, branch).value.config;
       && target.activityType == InstantiatedType(c)
       && CompletionSignal(c).Some?
       && DecideAdvance(def, cel, ctx, branch, CompletionSignal(c).value) == (Advance(join, None), EMPTY_TRACE)
  }

  /** Split convergence: in an accepted definition a split fans out to one target per branch, of the
      branch's own activity type, and the completion of every branch is decided as an advance to one
      and the same join. */
  lemma SplitConverges(def: Definition, cel: Cel, ctx: Context, split: Node) returns (join: NodeId)
    requires ValidDefinition(def, cel) && split in def.nodes && split.config.ParallelSplit?
    ensures FindNode(def.nodes, join).Some? && FindNode(def.nodes, join).value.config.ParallelJoin?
    ensures var branches := split.config.branchTargets;
            && Landing(def, cel, ctx, split.id).AdvanceMulti?
            && var targets := Landing(def, cel, ctx, split.id).targets;
               && |targets| == |branches| >= 2
               && forall i :: 0 <= i < |branches| ==> Converges(def, cel, ctx, branches[i], targets[i], join)
  {
    FindNodeIsNode(def.nodes, split);
    FoundIsValid(def, cel, split.id);
    var branches := split.config.branchTargets;
    assert SplitBranchValid(def, branches[0]);
    join := BranchJoin(def, branches[0]).value;
    SplitTargetsExist(def, branches);
    forall i | 0 <= i < |branches|
      ensures Converges(def, cel, ctx, branches[i], SplitTargets(def.nodes, branches).value[i], join)
    {
      BranchConverges(def, cel, ctx, branches[i], join);
    }
  }

  /** A target resolves to a join exactly when its walk stops there in time. */
  lemma ResolvesToJoin(def: Definition, cel: Cel, ctx: Context, target: NodeId, join: NodeId)
    requires FindNode(def.nodes, join).Some? && FindNode(def.nodes, join).value.config.ParallelJoin?
    ensures Resolve(def, cel, ctx, target).0 == Advance(join, None) <==> ReachesJoin(def, cel, ctx, target, join)
  {
    var w := RouterOf(def, cel, ctx);
    ResolverExact(def, cel, ctx, target);
    if StopsWithin(w, target, MAX_RESOLVE_DEPTH) {
      var n: nat :| n <= MAX_RESOLVE_DEPTH && StopsAfter(w, target, n);
      JoinReachedAt(def, cel, ctx, target, join, n);
      LandsOnJoin(def, cel, ctx, WalkTo(w, target, n).value, join);
    }
  }

  lemma LandsOnJoin(def: Definition, cel: Cel, ctx: Context, end: NodeId, join: NodeId)
    requires FindNode(def.nodes, join).Some? && FindNode(def.nodes, join).value.config.ParallelJoin?
    ensures Landing(def, cel, ctx, end) == Advance(join, None) <==> end == join
  {
  }

  lemma JoinReachedAt(def: Definition, cel: Cel, ctx: Context, target: NodeId, join: NodeId, n: nat)
    requires n <= MAX_RESOLVE_DEPTH && StopsAfter(RouterOf(def, cel, ctx), target, n)
    ensures ReachesJoin(def, cel, ctx, target, join) <==> WalkTo(RouterOf(def, cel, ctx), target, n) == Some(join)
  {
    forall m: nat | StopsAfter(RouterOf(def, cel, ctx), target, m) ensures m == n {
      StopsOnce(RouterOf(def, cel, ctx), target, m, n);
    }
  }

  predicate ReachesJoin(def: Definition, cel: Cel, ctx: Context, target: NodeId, join: NodeId) {
    exists n: nat :: n <= MAX_RESOLVE_DEPTH && StopsAfter(RouterOf(def, cel, ctx), target, n)
                     && WalkTo(RouterOf(def, cel, ctx), target, n) == Some(join)
  }

  lemma ForEachJoinExists(def: Definition, cel: Cel, source: Node)
    requires ValidDefinition(def, cel) && source in def.nodes && source.config.ForEach?
    ensures var join := FindNode(def.nodes, source.config.joinTarget);
            join.Some? && join.value.config.ParallelJoin?
  {
    FindNodeIsNode(def.nodes, source);
    FoundIsValid(def, cel, source.id);
  }

  lemma CompletionReaches(def: Definition, cel: Cel, ctx: Context, node: Node, signal: SignalType, join: NodeId)
    requires FindNode(def.nodes, join).Some? && FindNode(def.nodes, join).value.config.ParallelJoin?
    requires CompletionSignal(node.config) == Some(signal)
    ensures var edge := FindTransition(def.transitions, node.id, signal);
            DecideAdvance(def, cel, ctx, node.id, signal).0 == Advance(join, None) <==>
            edge.Some? && ReachesJoin(def, cel, ctx, edge.value.to, join)
  {
    DecisionFollows(def, cel, ctx, node.id, signal);
    var edge := FindTransition(def.transitions, node.id, signal);
    if edge.Some? {
      ResolvesToJoin(def, cel, ctx, edge.value.to, join);
    }
  }

  /** A ForEach promises less: the gate only asks for some edge of a join-incoming signal from the
      template to the join. Its branches converge exactly when the first edge on the template's own
      completion signal resolves to the join. */
  lemma ForEachConverges(def: Definition, cel: Cel, ctx: Context, source: Node, template: Node, signal: SignalType)
    requires ValidDefinition(def, cel) && source in def.nodes && source.config.ForEach?
    requires FindNode(def.nodes, source.config.branchTemplate) == Some(template)
    requires CompletionSignal(template.config) == Some(signal)
    ensures var edge := FindTransition(def.transitions, template.id, signal);
            DecideAdvance(def, cel, ctx, template.id, signal).0 == Advance(source.config.joinTarget, None) <==>
            edge.Some? && ReachesJoin(def, cel, ctx, edge.value.to, source.config.joinTarget)
  {
    ForEachJoinExists(def, cel, source);
    CompletionReaches(def, cel, ctx, template, signal, source.config.joinTarget);
  }
}
