/** What the static graph says about runs: where work can appear, and exactly when lint never reports a node as
    unreachable that a run stands at. */
module LintSoundness {
  import opened Core
  import opened Walk
  import opened Routing
  import opened Validation
  import opened Progress
  import opened Facts
  import opened Database
  import opened Engine
  import opened Preservation
  import opened Lint
  import opened Regions
  import opened Runs

  // ------------------------------------------------------------------ hops and landings

  lemma {:induction false} EdgeIsTarget(transitions: seq<Transition>, t: Transition)
    requires t in transitions
    ensures t.to in EdgeTargets(transitions, t.from)
  {
    if transitions[0] != t {
      EdgeIsTarget(transitions[1..], t);
    }
  }

  lemma TransitionIsStatic(def: Definition, t: Transition)
    requires t in def.transitions && Exists(def, t.from) && Exists(def, t.to)
    ensures StaticEdge(def, t.from, t.to)
  {
    EdgeIsTarget(def.transitions, t);
  }

  lemma HopIsStatic(def: Definition, cel: Cel, ctx: Context, a: NodeId)
    requires NextHop(def, cel, ctx, a).Some? && Exists(def, NextHop(def, cel, ctx, a).value)
    ensures StaticEdge(def, a, NextHop(def, cel, ctx, a).value)
  {
    var node := FindNode(def.nodes, a).value;
    if node.config.Merge? {
      TransitionIsStatic(def, FindTransition(def.transitions, a, SignalType.Approved).value);
    } else {
      PickBranchTargets(cel, ctx, node.config.branches, node.config.defaultTarget);
      var b := NextHop(def, cel, ctx, a).value;
      if b != node.config.defaultTarget {
        var i :| 0 <= i < |node.config.branches| && node.config.branches[i].target == b;
        assert BranchTargets(node.config.branches)[i] == b;
      }
    }
  }

  // ------------------------------------------------------------------ where a token flows

  /** A ForEach names its template and its join in its configuration; lint does not follow them. */
  predicate FansTo(def: Definition, a: NodeId, b: NodeId) {
    && Exists(def, a) && FindNode(def.nodes, a).value.config.ForEach?
    && var c := FindNode(def.nodes, a).value.config;
       b == c.branchTemplate || b == c.joinTarget
  }

  predicate FlowEdge(def: Definition, a: NodeId, b: NodeId) {
    StaticEdge(def, a, b) || FansTo(def, a, b)
  }

  predicate IsFlow(def: Definition, path: seq<NodeId>) {
    |path| > 0 && forall k :: 0 <= k < |path| - 1 ==> FlowEdge(def, path[k], path[k + 1])
  }

  /** Static edges and fan-outs lead from `a` to `b`. */
  ghost predicate Flows(def: Definition, a: NodeId, b: NodeId) {
    exists path: seq<NodeId> :: IsFlow(def, path) && path[0] == a && path[|path| - 1] == b
  }

  lemma FlowsNext(def: Definition, a: NodeId, b: NodeId, c: NodeId)
    requires Flows(def, a, b) && FlowEdge(def, b, c)
    ensures Flows(def, a, c)
  {
    var path: seq<NodeId> :| IsFlow(def, path) && path[0] == a && path[|path| - 1] == b;
    var longer := path + [c];
    forall k | 0 <= k < |longer| - 1 ensures FlowEdge(def, longer[k], longer[k + 1]) {
      if k < |path| - 1 {
        assert FlowEdge(def, path[k], path[k + 1]);
      }
    }
    assert IsFlow(def, longer) && longer[0] == a && longer[|longer| - 1] == c;
  }

  lemma ReachesFlows(def: Definition, a: NodeId, b: NodeId)
    requires Reaches(def, a, b)
    ensures Flows(def, a, b)
  {
    var path: seq<NodeId> :| IsPath(def, path) && path[0] == a && path[|path| - 1] == b;
    forall k | 0 <= k < |path| - 1 ensures FlowEdge(def, path[k], path[k + 1]) {
      assert StaticEdge(def, path[k], path[k + 1]);
    }
    assert IsFlow(def, path);
  }

  /** The template and the join of every ForEach that static edges lead to are led to as well. */
  ghost predicate ForEachsReach(def: Definition, from: NodeId) {
    forall a, b :: FansTo(def, a, b) && Reaches(def, from, a) ==> Reaches(def, from, b)
  }

  lemma {:induction false} FlowIsStatic(def: Definition, from: NodeId, path: seq<NodeId>)
    requires ForEachsReach(def, from) && IsFlow(def, path) && Reaches(def, from, path[0])
    ensures Reaches(def, from, path[|path| - 1])
    decreases |path|
  {
    if |path| > 1 {
      var rest := path[1..];
      forall k | 0 <= k < |rest| - 1 ensures FlowEdge(def, rest[k], rest[k + 1]) {
        assert FlowEdge(def, path[k + 1], path[k + 1 + 1]);
      }
      assert FlowEdge(def, path[0], path[0 + 1]);
      if StaticEdge(def, path[0], path[1]) {
        ReachesNext(def, from, path[0], path[1]);
      }
      FlowIsStatic(def, from, rest);
    }
  }

  lemma FlowsReaches(def: Definition, from: NodeId, b: NodeId)
    requires ForEachsReach(def, from) && Flows(def, from, b)
    ensures Reaches(def, from, b)
  {
    var path: seq<NodeId> :| IsFlow(def, path) && path[0] == from && path[|path| - 1] == b;
    ReachesItself(def, from);
    FlowIsStatic(def, from, path);
  }

  /** A walk that began where a token can flow stays where it can. */
  lemma {:induction false} WalkFlows(def: Definition, cel: Cel, ctx: Context, from: NodeId, a: NodeId, n: nat)
    requires Flows(def, from, a) && WalkTo(RouterOf(def, cel, ctx), a, n).Some?
    requires Exists(def, WalkTo(RouterOf(def, cel, ctx), a, n).value)
    ensures Flows(def, from, WalkTo(RouterOf(def, cel, ctx), a, n).value)
    decreases n
  {
    if n > 0 {
      var b := NextHop(def, cel, ctx, a).value;
      assert WalkTo(RouterOf(def, cel, ctx), b, n - 1).Some?;
      assert Exists(def, b);
      HopIsStatic(def, cel, ctx, a);
      FlowsNext(def, from, a, b);
      WalkFlows(def, cel, ctx, from, b, n - 1);
    }
  }

  /** A token can flow to every node a decision names. */
  ghost predicate DecisionIn(def: Definition, from: NodeId, outcome: AdvanceOutcome, forEach: Option<FanOut>) {
    match outcome
    case Advance(target, _) => Flows(def, from, target)
    case Rework(target, _) => Flows(def, from, target)
    case AdvanceMulti(targets) =>
      && (forall i :: 0 <= i < |targets| ==> Flows(def, from, targets[i].node))
      && (forEach.Some? ==> Flows(def, from, forEach.value.joinTarget))
    case _ => true
  }

  lemma {:induction false} SplitTargetsNamed(nodes: seq<Node>, branches: seq<NodeId>)
    ensures var r := SplitTargets(nodes, branches);
            r.Some? ==> forall i :: 0 <= i < |r.value| ==>
                r.value[i].node in branches && FindNode(nodes, r.value[i].node).Some?
  {
    if branches != [] {
      SplitTargetsNamed(nodes, branches[1..]);
    }
  }

  lemma BranchIsStatic(def: Definition, id: NodeId, branch: NodeId)
    requires Exists(def, id) && FindNode(def.nodes, id).value.config.ParallelSplit? && Exists(def, branch)
    requires branch in FindNode(def.nodes, id).value.config.branchTargets
    ensures StaticEdge(def, id, branch)
  {
  }

  lemma SplitReached(def: Definition, cel: Cel, ctx: Context, from: NodeId, id: NodeId)
    requires Flows(def, from, id) && Exists(def, id) && FindNode(def.nodes, id).value.config.ParallelSplit?
    ensures DecisionIn(def, from, Landing(def, cel, ctx, id), None)
  {
    var outcome := Landing(def, cel, ctx, id);
    if outcome.AdvanceMulti? {
      SplitTargetsNamed(def.nodes, FindNode(def.nodes, id).value.config.branchTargets);
      forall i | 0 <= i < |outcome.targets| ensures Flows(def, from, outcome.targets[i].node) {
        BranchIsStatic(def, id, outcome.targets[i].node);
        FlowsNext(def, from, id, outcome.targets[i].node);
      }
    }
  }

  lemma LandingReached(def: Definition, cel: Cel, ctx: Context, from: NodeId, id: NodeId)
    requires Flows(def, from, id)
    ensures DecisionIn(def, from, Landing(def, cel, ctx, id), LandingFanOut(def, id))
  {
    if Exists(def, id) && FindNode(def.nodes, id).value.config.ParallelSplit? {
      SplitReached(def, cel, ctx, from, id);
    } else if Exists(def, id) && FindNode(def.nodes, id).value.config.ForEach? {
      var c := FindNode(def.nodes, id).value.config;
      FlowsNext(def, from, id, c.branchTemplate);
      FlowsNext(def, from, id, c.joinTarget);
    }
  }

  lemma ResolveReached(def: Definition, cel: Cel, ctx: Context, from: NodeId, target: NodeId)
    requires (Exists(def, target) ==> Flows(def, from, target))
    ensures var (outcome, trace) := Resolve(def, cel, ctx, target);
            DecisionIn(def, from, outcome, trace.forEach)
  {
    var w := RouterOf(def, cel, ctx);
    ResolverExact(def, cel, ctx, target);
    if StopsWithin(w, target, MAX_RESOLVE_DEPTH) && Exists(def, target) {
      var n: nat :| n <= MAX_RESOLVE_DEPTH && StopsAfter(w, target, n);
      var landed := WalkTo(w, target, n).value;
      if Exists(def, landed) {
        WalkFlows(def, cel, ctx, from, target, n);
        LandingReached(def, cel, ctx, from, landed);
      }
    }
  }

  lemma EdgeReached(def: Definition, from: NodeId, at: NodeId, t: Transition)
    requires Flows(def, from, at) && Exists(def, at) && t in def.transitions && t.from == at && Exists(def, t.to)
    ensures Flows(def, from, t.to)
  {
    TransitionIsStatic(def, t);
    FlowsNext(def, from, at, t.to);
  }

  /** Every decision taken where a token can flow names nodes it can flow to. */
  lemma DecisionReached(def: Definition, cel: Cel, ctx: Context, from: NodeId, at: NodeId, signal: SignalType)
    requires Flows(def, from, at) && Exists(def, at)
    ensures var (outcome, trace) := DecideAdvance(def, cel, ctx, at, signal);
            DecisionIn(def, from, outcome, trace.forEach)
  {
    var edge := FindTransition(def.transitions, at, signal);
    if edge.Some? {
      if Exists(def, edge.value.to) {
        EdgeReached(def, from, at, edge.value);
      }
      ResolveReached(def, cel, ctx, from, edge.value.to);
    }
  }

  lemma TimeoutReached(def: Definition, cel: Cel, ctx: Context, from: NodeId, at: NodeId)
    requires Flows(def, from, at) && Exists(def, at)
    ensures var (outcome, trace) := DecideTimeout(def, cel, ctx, at);
            DecisionIn(def, from, outcome, trace.forEach)
  {
    var target := FindNode(def.nodes, at).value.TimeoutTarget();
    if target.Some? {
      if Exists(def, target.value) {
        FlowsNext(def, from, at, target.value);
      }
      ResolveReached(def, cel, ctx, from, target.value);
    }
  }

  // ------------------------------------------------------------------ runs

  ghost function FlowsFrom(def: Definition, from: NodeId): iset<NodeId> {
    iset b | Flows(def, from, b)
  }

  lemma FlowsIsSealed(def: Definition, cel: Cel, from: NodeId)
    requires DecideStart(def.nodes).Some? ==> Flows(def, from, DecideStart(def.nodes).value.id)
    ensures Sealed(def, cel, FlowsFrom(def, from))
  {
    var region := FlowsFrom(def, from);
    forall ctx, at, signal | at in region && FindNode(def.nodes, at).Some?
      ensures Stays(region, DecideAdvance(def, cel, ctx, at, signal).0, DecideAdvance(def, cel, ctx, at, signal).1)
    {
      DecisionReached(def, cel, ctx, from, at, signal);
    }
    forall ctx, at | at in region && FindNode(def.nodes, at).Some?
      ensures Stays(region, DecideTimeout(def, cel, ctx, at).0, DecideTimeout(def, cel, ctx, at).1)
    {
      TimeoutReached(def, cel, ctx, from, at);
    }
  }

  /** In every run an activity only ever appears at a node to which static edges and fan-outs lead from the entry, and
      static edges alone where they lead to the template and the join of every ForEach they lead to. */
  lemma ActivitiesAreReachable(env: Env, cmd: StartCommand, steps: seq<Step>, fuel: nat, i: nat)
    requires StartInstance(env, cmd).Ok? && i < |RunAll(env, Began(env, cmd), steps, fuel).activities|
    ensures var node := RunAll(env, Began(env, cmd), steps, fuel).activities[i].node;
            var entry := DecideStart(cmd.def.nodes).value.id;
            Flows(cmd.def, entry, node) && (ForEachsReach(cmd.def, entry) ==> Reaches(cmd.def, entry, node))
  {
    var entry := DecideStart(cmd.def.nodes).value.id;
    ReachesItself(cmd.def, entry);
    ReachesFlows(cmd.def, entry, entry);
    FlowsIsSealed(cmd.def, env.cel, entry);
    RegionHolds(env, cmd, steps, fuel, FlowsFrom(cmd.def, entry));
    var node := RunAll(env, Began(env, cmd), steps, fuel).activities[i].node;
    assert node in FlowsFrom(cmd.def, entry);
    if ForEachsReach(cmd.def, entry) {
      FlowsReaches(cmd.def, entry, node);
    }
  }

  lemma {:induction false} StartsAreCounted(nodes: seq<Node>)
    ensures |Starts(nodes)| == CountStarts(nodes)
  {
    if nodes != [] {
      StartsAreCounted(nodes[1..]);
    }
  }

  /** Where lint begins in an accepted definition. */
  function StartNode(def: Definition): (start: NodeId)
    requires CountStarts(def.nodes) == 1
    ensures Starts(def.nodes) == [start]
  {
    StartsAreCounted(def.nodes);
    Starts(def.nodes)[0]
  }

  /** No activity stands at a node that lint reports as unreachable. */
  ghost predicate Unreported(def: Definition, d: Db) {
    forall i :: 0 <= i < |d.activities| ==> !Unreachable(def, d.activities[i].node)
  }

  ghost predicate NeverReported(env: Env, cmd: StartCommand, fuel: nat)
    requires StartInstance(env, cmd).Ok?
  {
    forall steps :: Unreported(cmd.def, RunAll(env, Began(env, cmd), steps, fuel))
  }

  lemma BeganAtEntry(env: Env, cmd: StartCommand)
    requires StartInstance(env, cmd).Ok?
    ensures Began(env, cmd).activities != []
    ensures Began(env, cmd).activities[0].node == DecideStart(cmd.def.nodes).value.id
  {
    var d := Append(NewInstance(cmd.def, cmd.context), Started(cmd.callback), None);
    var entry := DecideStart(cmd.def.nodes).value;
    var node := NodeOf(d, entry.id).value;
    assert StartInstance(env, cmd) == AdvanceTo(d, node, entry.AssigneeRole(), 1);
    ScheduleShape(d, node, entry.AssigneeRole(), 1, Linear);
  }

  lemma EntryUnreachable(def: Definition, start: NodeId, entry: Node)
    requires Starts(def.nodes) == [start] && entry in def.nodes && !entry.config.Start?
    requires !Reaches(def, start, entry.id)
    ensures Unreachable(def, entry.id)
  {
  }

  /** An entry that the start does not lead to is reported while the first activity stands there. */
  lemma EntryReported(env: Env, cmd: StartCommand, start: NodeId, fuel: nat)
    requires StartInstance(env, cmd).Ok? && Starts(cmd.def.nodes) == [start]
    requires !Reaches(cmd.def, start, DecideStart(cmd.def.nodes).value.id)
    ensures !NeverReported(env, cmd, fuel)
  {
    BeganAtEntry(env, cmd);
    EntryUnreachable(cmd.def, start, DecideStart(cmd.def.nodes).value);
    assert RunAll(env, Began(env, cmd), [], fuel) == Began(env, cmd);
    assert !Unreported(cmd.def, RunAll(env, Began(env, cmd), [], fuel));
  }

  lemma FlowsUnreported(def: Definition, d: Db, start: NodeId)
    requires Starts(def.nodes) == [start] && ForEachsReach(def, start) && StandsIn(d, FlowsFrom(def, start))
    ensures Unreported(def, d)
  {
    forall i | 0 <= i < |d.activities| ensures !Unreachable(def, d.activities[i].node) {
      assert d.activities[i].node in FlowsFrom(def, start);
      FlowsReaches(def, start, d.activities[i].node);
    }
  }

  lemma FlowsNeverReported(env: Env, cmd: StartCommand, start: NodeId, fuel: nat)
    requires StartInstance(env, cmd).Ok? && Starts(cmd.def.nodes) == [start] && ForEachsReach(cmd.def, start)
    requires Sealed(cmd.def, env.cel, FlowsFrom(cmd.def, start))
    ensures NeverReported(env, cmd, fuel)
  {
    forall steps ensures Unreported(cmd.def, RunAll(env, Began(env, cmd), steps, fuel)) {
      RegionHolds(env, cmd, steps, fuel, FlowsFrom(cmd.def, start));
      FlowsUnreported(cmd.def, RunAll(env, Began(env, cmd), steps, fuel), start);
    }
  }

  /** Lint exactness about runs: that no run ever stands at a node lint reports as unreachable from the start implies,
      and where the template and the join of every ForEach are led to is implied by, that the entry, the first
      Approval node in list order, is reachable from the start. */
  lemma LintSoundExactly(env: Env, cmd: StartCommand, fuel: nat)
    requires StartInstance(env, cmd).Ok?
    ensures var start, entry := StartNode(cmd.def), DecideStart(cmd.def.nodes).value.id;
            && (NeverReported(env, cmd, fuel) ==> Reaches(cmd.def, start, entry))
            && (ForEachsReach(cmd.def, start) && Reaches(cmd.def, start, entry) ==> NeverReported(env, cmd, fuel))
  {
    var start, entry := StartNode(cmd.def), DecideStart(cmd.def.nodes).value.id;
    if !Reaches(cmd.def, start, entry) {
      EntryReported(env, cmd, start, fuel);
    } else if ForEachsReach(cmd.def, start) {
      ReachesFlows(cmd.def, start, entry);
      FlowsIsSealed(cmd.def, env.cel, start);
      FlowsNeverReported(env, cmd, start, fuel);
    }
  }
}
