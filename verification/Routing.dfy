/** Pure advance decisions: following a transition through Condition and Merge nodes to the node
    where the token stops, and what stopping there means. */
module Routing {
  import opened Core
  import opened Walk

  /** Routing depth bound of the resolver. */
  const MAX_RESOLVE_DEPTH: nat := 8

  datatype ParallelTarget = ParallelTarget(
    node: NodeId, activityType: ActivityType, role: Option<Role>, item: Option<(nat, Json)>)

  datatype AdvanceOutcome =
    | Advance(target: NodeId, role: Option<Role>)
    | AdvanceMulti(targets: seq<ParallelTarget>)
    | Complete(result: WorkflowResult)
    | Rework(target: NodeId, role: Option<Role>)
    | Error

  datatype FanOut = FanOut(forEachNode: NodeId, joinTarget: NodeId)

  datatype ResolveTrace = ResolveTrace(merges: seq<NodeId>, forEach: Option<FanOut>)

  const EMPTY_TRACE := ResolveTrace([], None)

  // ------------------------------------------------------------------ one routing step

  /** Target a Condition picks: its first branch whose guard is true, else the default; `None` when
      a guard fails before that. */
  function PickBranch(cel: Cel, ctx: Context, branches: seq<Branch>, defaultTarget: NodeId): Option<NodeId> {
    if branches == [] then Some(defaultTarget)
    else
      match cel.guard(branches[0].guard, ctx)
      case Some(true) => Some(branches[0].target)
      case Some(false) => PickBranch(cel, ctx, branches[1..], defaultTarget)
      case None => None
  }

  function EndResult(code: Option<string>): WorkflowResult {
    if code == Some("rejected") then WorkflowResult.Rejected
    else if code == Some("returned") then WorkflowResult.Returned
    else WorkflowResult.Approved
  }

  /** Branch activity type of a ParallelSplit target, `None` for kinds that cannot be a branch. */
  function BranchType(c: NodeConfig): Option<ActivityType> {
    if c.Approval? || c.Assignment? || c.EventWait? || c.Notification? then Some(InstantiatedType(c)) else None
  }

  function SplitTargets(nodes: seq<Node>, branches: seq<NodeId>): Option<seq<ParallelTarget>> {
    if branches == [] then Some([])
    else
      var node := FindNode(nodes, branches[0]);
      if node.None? || BranchType(node.value.config).None? then None
      else
        var rest := SplitTargets(nodes, branches[1..]);
        if rest.None? then None
        else Some([ParallelTarget(branches[0], BranchType(node.value.config).value, node.value.AssigneeRole(), None)]
                  + rest.value)
  }

  function ForEachTargets(template: Node, items: seq<Json>): (r: seq<ParallelTarget>)
    ensures |r| == |items|
  {
    seq(|items|, i requires 0 <= i < |items| =>
      ParallelTarget(template.id, InstantiatedType(template.config), template.AssigneeRole(), Some((i, items[i]))))
  }

  /** What it means for the token to stop at a node that is not a routing node. */
  function Landing(def: Definition, cel: Cel, ctx: Context, id: NodeId): (r: AdvanceOutcome)
    ensures r.Advance? ==> r.target == id
    ensures !r.Rework?
  {
    var found := FindNode(def.nodes, id);
    if found.None? then Error
    else
      var node := found.value;
      match node.config
      case Approval(_, _, _, _) => Advance(id, node.AssigneeRole())
      case EventWait(_, _, _) => Advance(id, None)
      case Notification(_, _) => Advance(id, None)
      case Assignment(_, _) => Advance(id, None)
      case SubWorkflow(_, _) => Advance(id, None)
      case ParallelJoin(_) => Advance(id, None)
      case ParallelSplit(branches) =>
        var targets := SplitTargets(def.nodes, branches);
        if targets.Some? then AdvanceMulti(targets.value) else Error
      case ForEach(path, template, join, cap) =>
        var items := cel.items(path, ctx);
        var tpl := FindNode(def.nodes, template);
        if items.None? then Error
        else if Positive(cap).Some? && |items.value| > cap.value then Error
        else if tpl.None?
            || !(tpl.value.config.Approval? || tpl.value.config.Assignment? || tpl.value.config.EventWait?)
        then Error
        else AdvanceMulti(ForEachTargets(tpl.value, items.value))
      case End(code) => Complete(EndResult(code))
      case _ => Error
  }

  /** Fan-out source a ForEach leaves in the trace. */
  function LandingFanOut(def: Definition, id: NodeId): Option<FanOut> {
    var found := FindNode(def.nodes, id);
    if found.Some? && found.value.config.ForEach? then Some(FanOut(id, found.value.config.joinTarget)) else None
  }

  // ------------------------------------------------------------------ the resolver

  /** Follows routing nodes from `target`, refusing a node seen before and more than
      `MAX_RESOLVE_DEPTH` hops; records the Merge nodes it passes. */
  function ResolveTarget(def: Definition, cel: Cel, ctx: Context, target: NodeId,
                         visited: set<NodeId>, trace: ResolveTrace, depth: nat): (AdvanceOutcome, ResolveTrace)
    decreases MAX_RESOLVE_DEPTH + 1 - depth
  {
    if depth > MAX_RESOLVE_DEPTH then (Error, trace)
    else if target in visited then (Error, trace)
    else
      var found := FindNode(def.nodes, target);
      if found.None? then (Error, trace)
      else
        match found.value.config
        case Merge =>
          var trace' := trace.(merges := trace.merges + [target]);
          var next := FindTransition(def.transitions, target, SignalType.Approved);
          if next.None? then (Error, trace')
          else ResolveTarget(def, cel, ctx, next.value.to, visited + {target}, trace', depth + 1)
        case Condition(defaultTarget, branches) =>
          var next := PickBranch(cel, ctx, branches, defaultTarget);
          if next.None? then (Error, trace)
          else ResolveTarget(def, cel, ctx, next.value, visited + {target}, trace, depth + 1)
        case ForEach(_, _, join, _) =>
          (Landing(def, cel, ctx, target), trace.(forEach := Some(FanOut(target, join))))
        case _ => (Landing(def, cel, ctx, target), trace)
  }

  function Resolve(def: Definition, cel: Cel, ctx: Context, target: NodeId): (AdvanceOutcome, ResolveTrace) {
    ResolveTarget(def, cel, ctx, target, {}, EMPTY_TRACE, 0)
  }

  /** Decision for a signal on a node. */
  function DecideAdvance(def: Definition, cel: Cel, ctx: Context, current: NodeId, signal: SignalType)
    : (AdvanceOutcome, ResolveTrace)
  {
    match signal
    case Rejected => (Complete(WorkflowResult.Rejected), EMPTY_TRACE)
    case Returned =>
      (match FindTransition(def.transitions, current, SignalType.Returned)
       case Some(t) =>
         var (outcome, trace) := Resolve(def, cel, ctx, t.to);
         (if outcome.Advance? then Rework(outcome.target, outcome.role) else Error, trace)
       case None => (Complete(WorkflowResult.Returned), EMPTY_TRACE))
    case Approved => Follow(def, cel, ctx, current, signal)
    case EventReceived => Follow(def, cel, ctx, current, signal)
    case Completed => Follow(def, cel, ctx, current, signal)
    case _ => (Error, EMPTY_TRACE)
  }

  function Follow(def: Definition, cel: Cel, ctx: Context, current: NodeId, signal: SignalType)
    : (AdvanceOutcome, ResolveTrace)
  {
    match FindTransition(def.transitions, current, signal)
    case Some(t) => Resolve(def, cel, ctx, t.to)
    case None => (Error, EMPTY_TRACE)
  }

  /** Decision for an EventWait whose deadline passed. */
  function DecideTimeout(def: Definition, cel: Cel, ctx: Context, current: NodeId): (AdvanceOutcome, ResolveTrace) {
    var found := FindNode(def.nodes, current);
    if found.None? || found.value.TimeoutTarget().None? then (Error, EMPTY_TRACE)
    else Resolve(def, cel, ctx, found.value.TimeoutTarget().value)
  }

  predicate FirstApprovalAt(nodes: seq<Node>, i: nat)
    requires i < |nodes|
  {
    nodes[i].config.Approval? && forall j :: 0 <= j < i ==> !nodes[j].config.Approval?
  }

  /** Entry of a fresh or resubmitted instance: the first Approval node in list order. */
  function DecideStart(nodes: seq<Node>): (r: Option<Node>)
    ensures r.Some? ==> exists i :: 0 <= i < |nodes| && FirstApprovalAt(nodes, i) && r.value == nodes[i]
    ensures r.None? <==> forall i :: 0 <= i < |nodes| ==> !nodes[i].config.Approval?
  {
    if nodes == [] then None
    else if nodes[0].config.Approval? then Some(nodes[0])
    else DecideStart(nodes[1..])
  }

  // ------------------------------------------------------------------ the walk the resolver follows

  /** Successor of a routing node under the guards, `None` for every other node and for a routing
      node that gives no successor. */
  function NextHop(def: Definition, cel: Cel, ctx: Context, id: NodeId): Option<NodeId> {
    var found := FindNode(def.nodes, id);
    if found.None? then None
    else
      match found.value.config
      case Merge =>
        var next := FindTransition(def.transitions, id, SignalType.Approved);
        if next.Some? then Some(next.value.to) else None
      case Condition(defaultTarget, branches) => PickBranch(cel, ctx, branches, defaultTarget)
      case _ => None
  }

  function RouterOf(def: Definition, cel: Cel, ctx: Context): Router {
    Router(id => FindNode(def.nodes, id).Some? && FindNode(def.nodes, id).value.Routes(),
           id => NextHop(def, cel, ctx, id),
           id => FindNode(def.nodes, id).Some? && FindNode(def.nodes, id).value.config.Merge?)
  }

  /** `outcome` and `trace'` are what a chase that landed at `landed` past `merges` leaves behind. */
  predicate Lands(def: Definition, cel: Cel, ctx: Context, trace: ResolveTrace,
                  landed: Option<NodeId>, merges: seq<NodeId>, outcome: AdvanceOutcome, trace': ResolveTrace)
  {
    && outcome == (if landed.None? then Error else Landing(def, cel, ctx, landed.value))
    && trace'.merges == trace.merges + merges
    && trace'.forEach == (if landed.Some? && LandingFanOut(def, landed.value).Some?
                          then LandingFanOut(def, landed.value) else trace.forEach)
  }

  lemma LandsHere(def: Definition, cel: Cel, ctx: Context, target: NodeId,
                  visited: set<NodeId>, trace: ResolveTrace, depth: nat)
    requires depth <= MAX_RESOLVE_DEPTH && target !in visited && !RouterOf(def, cel, ctx).routes(target)
    ensures var (outcome, trace') := ResolveTarget(def, cel, ctx, target, visited, trace, depth);
            Lands(def, cel, ctx, trace, Some(target), [], outcome, trace')
  {
    assert trace.merges + [] == trace.merges;
  }

  lemma LandsLater(def: Definition, cel: Cel, ctx: Context, trace: ResolveTrace, passed: seq<NodeId>,
                   landed: Option<NodeId>, merges: seq<NodeId>, outcome: AdvanceOutcome, trace': ResolveTrace)
    requires Lands(def, cel, ctx, trace.(merges := trace.merges + passed), landed, merges, outcome, trace')
    ensures Lands(def, cel, ctx, trace, landed, passed + merges, outcome, trace')
  {
    assert trace.merges + (passed + merges) == trace.merges + passed + merges;
  }

  /** One recursive call of the resolver is one hop of the router. */
  lemma ResolveHops(def: Definition, cel: Cel, ctx: Context, target: NodeId,
                    visited: set<NodeId>, trace: ResolveTrace, depth: nat)
    requires depth <= MAX_RESOLVE_DEPTH && target !in visited && RouterOf(def, cel, ctx).routes(target)
    ensures var w := RouterOf(def, cel, ctx);
            var trace1 := trace.(merges := trace.merges + Passed(w, target));
            ResolveTarget(def, cel, ctx, target, visited, trace, depth)
            == if w.hop(target).None? then (Error, trace1)
               else ResolveTarget(def, cel, ctx, w.hop(target).value, visited + {target}, trace1, depth + 1)
  {
    assert trace.merges + [] == trace.merges;
  }

  /** The resolver from `target` and the chase from it end alike. */
  predicate ResolvesAsChase(def: Definition, cel: Cel, ctx: Context, target: NodeId, visited: set<NodeId>,
                            trace: ResolveTrace, depth: nat)
  {
    var (outcome, trace') := ResolveTarget(def, cel, ctx, target, visited, trace, depth);
    var (landed, merges) := Chase(RouterOf(def, cel, ctx), target, visited, MAX_RESOLVE_DEPTH - depth);
    Lands(def, cel, ctx, trace, landed, merges, outcome, trace')
  }

  lemma ChaseRefused(def: Definition, cel: Cel, ctx: Context, target: NodeId, visited: set<NodeId>, trace: ResolveTrace,
                     depth: nat)
    requires depth > MAX_RESOLVE_DEPTH || target in visited
    ensures ResolvesAsChase(def, cel, ctx, target, visited, trace, depth)
  {
    assert trace.merges + [] == trace.merges;
  }

  lemma ChaseStops(def: Definition, cel: Cel, ctx: Context, target: NodeId, visited: set<NodeId>, trace: ResolveTrace,
                   depth: nat)
    requires depth <= MAX_RESOLVE_DEPTH && target !in visited && !RouterOf(def, cel, ctx).routes(target)
    ensures ResolvesAsChase(def, cel, ctx, target, visited, trace, depth)
  {
    LandsHere(def, cel, ctx, target, visited, trace, depth);
  }

  lemma ChaseFails(def: Definition, cel: Cel, ctx: Context, target: NodeId, visited: set<NodeId>, trace: ResolveTrace,
                   depth: nat)
    requires depth <= MAX_RESOLVE_DEPTH && target !in visited && RouterOf(def, cel, ctx).routes(target)
    requires RouterOf(def, cel, ctx).hop(target).None?
    ensures ResolvesAsChase(def, cel, ctx, target, visited, trace, depth)
  {
    ResolveHops(def, cel, ctx, target, visited, trace, depth);
  }

  lemma ChaseHops(def: Definition, cel: Cel, ctx: Context, target: NodeId, visited: set<NodeId>, trace: ResolveTrace,
                  depth: nat)
    requires var w := RouterOf(def, cel, ctx);
             && depth <= MAX_RESOLVE_DEPTH && target !in visited && w.routes(target) && w.hop(target).Some?
             && ResolvesAsChase(def, cel, ctx, w.hop(target).value, visited + {target},
                                trace.(merges := trace.merges + Passed(w, target)), depth + 1)
    ensures ResolvesAsChase(def, cel, ctx, target, visited, trace, depth)
  {
    var w := RouterOf(def, cel, ctx);
    ResolveHops(def, cel, ctx, target, visited, trace, depth);
    var (landed, merges) := Chase(w, w.hop(target).value, visited + {target}, MAX_RESOLVE_DEPTH - depth - 1);
    var (outcome, trace') := ResolveTarget(def, cel, ctx, target, visited, trace, depth);
    LandsLater(def, cel, ctx, trace, Passed(w, target), landed, merges, outcome, trace');
  }

  /** The resolver is a chase along the router of the definition, followed by a landing. */
  lemma {:induction false} ResolveIsChase(def: Definition, cel: Cel, ctx: Context, target: NodeId,
                                          visited: set<NodeId>, trace: ResolveTrace, depth: nat)
    ensures ResolvesAsChase(def, cel, ctx, target, visited, trace, depth)
    decreases MAX_RESOLVE_DEPTH + 1 - depth
  {
    var w := RouterOf(def, cel, ctx);
    if depth > MAX_RESOLVE_DEPTH || target in visited {
      ChaseRefused(def, cel, ctx, target, visited, trace, depth);
    } else if !w.routes(target) {
      ChaseStops(def, cel, ctx, target, visited, trace, depth);
    } else if w.hop(target).None? {
      ChaseFails(def, cel, ctx, target, visited, trace, depth);
    } else {
      ResolveIsChase(def, cel, ctx, w.hop(target).value, visited + {target},
                     trace.(merges := trace.merges + Passed(w, target)), depth + 1);
      ChaseHops(def, cel, ctx, target, visited, trace, depth);
    }
  }

  /** Resolver exactness: the resolver lands where the guard-chosen walk stops if the walk stops within
      the depth bound, recording exactly the Merge nodes of that walk and the ForEach it stopped at; a
      walk that does not stop in time is an error. */
  lemma ResolverExact(def: Definition, cel: Cel, ctx: Context, target: NodeId)
    ensures var (outcome, trace) := Resolve(def, cel, ctx, target);
            var w := RouterOf(def, cel, ctx);
            && (forall n: nat :: n <= MAX_RESOLVE_DEPTH && StopsAfter(w, target, n) ==>
                  && outcome == Landing(def, cel, ctx, WalkTo(w, target, n).value)
                  && trace.merges == MergesOn(w, target, n)
                  && trace.forEach == LandingFanOut(def, WalkTo(w, target, n).value))
            && (!StopsWithin(w, target, MAX_RESOLVE_DEPTH) ==> outcome.Error?)
  {
    ResolveIsChase(def, cel, ctx, target, {}, EMPTY_TRACE, 0);
    ChaseExact(RouterOf(def, cel, ctx), target, MAX_RESOLVE_DEPTH);
  }
}
