/** Small concrete definitions over any distinct ids, and runs of them seen as scenes: which activities stand where. */
module Samples {
  import opened Core
  import opened Routing
  import opened Validation
  import opened Facts
  import opened Replay
  import opened Database
  import opened Engine
  import opened Invariants
  import opened Preservation
  import opened Calls
  import opened Runs

  // ------------------------------------------------------------------ definitions

  /** An edge between the nodes at two positions. */
  datatype Arc = Arc(from: nat, to: nat, on: SignalType)

  predicate Fits(ids: seq<NodeId>, kinds: seq<NodeConfig>, arcs: seq<Arc>) {
    && |kinds| == |ids|
    && (forall i, j :: 0 <= i < j < |ids| ==> ids[i] != ids[j])
    && (forall k :: 0 <= k < |arcs| ==> arcs[k].from < |ids| && arcs[k].to < |ids|)
  }

  function NodeAt(ids: seq<NodeId>, kinds: seq<NodeConfig>, i: nat): Node
    requires i < |ids| == |kinds|
  {
    Node(ids[i], [], kinds[i])
  }

  function EdgeAt(ids: seq<NodeId>, arcs: seq<Arc>, k: nat): Transition
    requires k < |arcs| && arcs[k].from < |ids| && arcs[k].to < |ids|
  {
    Transition(ids[arcs[k].from], ids[arcs[k].to], arcs[k].on)
  }

  function Sample(ids: seq<NodeId>, kinds: seq<NodeConfig>, arcs: seq<Arc>): Definition
    requires Fits(ids, kinds, arcs)
  {
    Definition(seq(|ids|, i requires 0 <= i < |ids| => NodeAt(ids, kinds, i)),
               seq(|arcs|, k requires 0 <= k < |arcs| => EdgeAt(ids, arcs, k)), 0)
  }

  lemma Found(ids: seq<NodeId>, kinds: seq<NodeConfig>, arcs: seq<Arc>, i: nat)
    requires Fits(ids, kinds, arcs) && i < |ids|
    ensures var def := Sample(ids, kinds, arcs);
            && UniqueIds(def.nodes) && FindNode(def.nodes, ids[i]) == Some(NodeAt(ids, kinds, i))
            && ids[i] in Ids(def.nodes)
  {
    var nodes := Sample(ids, kinds, arcs).nodes;
    assert nodes[i] in nodes;
    FindNodeIsNode(nodes, nodes[i]);
  }

  lemma {:induction false} FirstEdge(ts: seq<Transition>, k: nat)
    requires k < |ts|
    requires forall j :: 0 <= j < k ==> !(ts[j].from == ts[k].from && ts[j].onSignal == ts[k].onSignal)
    ensures FindTransition(ts, ts[k].from, ts[k].onSignal) == Some(ts[k]) && HasEdge(ts, ts[k].from, ts[k].onSignal)
  {
    assert ts[k] in ts;
    if k > 0 {
      assert ts[1..][k - 1] == ts[k];
      FirstEdge(ts[1..], k - 1);
    }
  }

  /** The first arc out of a node on a signal is the one found. */
  lemma ArcFollowed(ids: seq<NodeId>, kinds: seq<NodeConfig>, arcs: seq<Arc>, k: nat)
    requires Fits(ids, kinds, arcs) && k < |arcs|
    requires forall j :: 0 <= j < k ==> !(arcs[j].from == arcs[k].from && arcs[j].on == arcs[k].on)
    ensures var ts := Sample(ids, kinds, arcs).transitions;
            && FindTransition(ts, ids[arcs[k].from], arcs[k].on) == Some(EdgeAt(ids, arcs, k))
            && HasEdge(ts, ids[arcs[k].from], arcs[k].on)
  {
    var ts := Sample(ids, kinds, arcs).transitions;
    forall j | 0 <= j < k ensures !(ts[j].from == ts[k].from && ts[j].onSignal == ts[k].onSignal) {
      assert arcs[j].from != arcs[k].from ==> ids[arcs[j].from] != ids[arcs[k].from];
    }
    FirstEdge(ts, k);
  }

  predicate Increasing(at: seq<nat>) {
    forall i, j :: 0 <= i < j < |at| ==> at[i] < at[j]
  }

  /** The transitions at the given positions, in order. */
  function Picked(ts: seq<Transition>, at: seq<nat>): seq<Transition>
    requires forall i :: 0 <= i < |at| ==> at[i] < |ts|
  {
    seq(|at|, i requires 0 <= i < |at| => ts[at[i]])
  }

  function Lowered(at: seq<nat>): seq<nat>
    requires forall i :: 0 <= i < |at| ==> at[i] > 0
  {
    seq(|at|, i requires 0 <= i < |at| => at[i] - 1)
  }

  /** The transitions a join counts are at just these positions. */
  predicate CountsAt(ts: seq<Transition>, join: NodeId, at: seq<nat>) {
    && Increasing(at) && (forall i :: 0 <= i < |at| ==> at[i] < |ts|)
    && forall k :: 0 <= k < |ts| ==> (LeadsIn(ts[k], join) <==> k in at)
  }

  predicate LeadsIn(t: Transition, join: NodeId) {
    t.to == join && IsJoinIncoming(t.onSignal)
  }

  lemma ZeroIsFirst(at: seq<nat>)
    requires Increasing(at)
    ensures 0 in at <==> at != [] && at[0] == 0
  {
    if 0 in at {
      var i :| 0 <= i < |at| && at[i] == 0;
      assert at[0] <= at[i];
    }
  }

  /** The positions past the first. */
  function Further(at: seq<nat>): seq<nat> {
    if at != [] && at[0] == 0 then at[1..] else at
  }

  lemma FurtherPositions(at: seq<nat>)
    requires Increasing(at)
    ensures Increasing(Further(at)) && forall i :: 0 <= i < |Further(at)| ==> Further(at)[i] > 0 && Further(at)[i] in at
    ensures forall k :: k in at && k > 0 ==> k in Further(at)
  {
    if at != [] && at[0] == 0 {
      assert at == [0] + at[1..];
    }
  }

  lemma CountsFurther(ts: seq<Transition>, join: NodeId, at: seq<nat>)
    requires ts != [] && CountsAt(ts, join, at)
    ensures forall i :: 0 <= i < |Further(at)| ==> Further(at)[i] > 0
    ensures CountsAt(ts[1..], join, Lowered(Further(at)))
  {
    FurtherPositions(at);
    var further := Further(at);
    forall k | 0 <= k < |ts[1..]| ensures LeadsIn(ts[1..][k], join) <==> k in Lowered(further) {
      assert ts[1..][k] == ts[k + 1];
      assert LeadsIn(ts[k + 1], join) <==> k + 1 in at;
      LoweredHas(further, k);
    }
  }

  lemma PickedFurther(ts: seq<Transition>, at: seq<nat>)
    requires ts != [] && forall i :: 0 <= i < |at| ==> at[i] < |ts|
    requires forall i :: 0 <= i < |Further(at)| ==> Further(at)[i] > 0
    ensures forall i :: 0 <= i < |Further(at)| ==> Further(at)[i] - 1 < |ts[1..]|
    ensures Picked(ts, at)
         == (if at != [] && at[0] == 0 then [ts[0]] else []) + Picked(ts[1..], Lowered(Further(at)))
  {
  }

  /** The edges a join counts are those at the positions that lead to it. */
  lemma {:induction false} IncomingAt(ts: seq<Transition>, join: NodeId, at: seq<nat>)
    requires CountsAt(ts, join, at)
    ensures Incoming(ts, join) == Picked(ts, at)
    decreases |ts|
  {
    if ts == [] {
      assert at == [];
    } else {
      ZeroIsFirst(at);
      assert LeadsIn(ts[0], join) <==> 0 in at;
      CountsFurther(ts, join, at);
      IncomingAt(ts[1..], join, Lowered(Further(at)));
      PickedFurther(ts, at);
    }
  }

  /** The arcs a join at `j` counts are at just these positions. */
  predicate ArcsInto(arcs: seq<Arc>, j: nat, at: seq<nat>) {
    && Increasing(at) && (forall i :: 0 <= i < |at| ==> at[i] < |arcs|)
    && forall k :: 0 <= k < |arcs| ==> ((arcs[k].to == j && IsJoinIncoming(arcs[k].on)) <==> k in at)
  }

  /** The nodes a join of a sample counts arrivals from. */
  lemma SourcesAt(ids: seq<NodeId>, kinds: seq<NodeConfig>, arcs: seq<Arc>, j: nat, at: seq<nat>)
    requires Fits(ids, kinds, arcs) && j < |ids| && ArcsInto(arcs, j, at)
    ensures var sources := Sources(Incoming(Sample(ids, kinds, arcs).transitions, ids[j]));
            |sources| == |at| && forall i :: 0 <= i < |at| ==> sources[i] == ids[arcs[at[i]].from]
  {
    var ts := Sample(ids, kinds, arcs).transitions;
    forall k | 0 <= k < |ts| ensures LeadsIn(ts[k], ids[j]) <==> k in at {
      assert arcs[k].to != j ==> ids[arcs[k].to] != ids[j];
    }
    IncomingAt(ts, ids[j], at);
  }

  lemma LoweredHas(at: seq<nat>, k: nat)
    requires forall i :: 0 <= i < |at| ==> at[i] > 0
    ensures k in Lowered(at) <==> k + 1 in at
  {
    if k + 1 in at {
      var i :| 0 <= i < |at| && at[i] == k + 1;
      assert Lowered(at)[i] == k;
    }
  }

  lemma {:induction false} NoStarts(nodes: seq<Node>)
    requires forall i :: 0 <= i < |nodes| ==> !nodes[i].config.Start?
    ensures CountStarts(nodes) == 0
  {
    if nodes != [] {
      NoStarts(nodes[1..]);
    }
  }

  /** A sample that begins with its only start, ends with an end and has valid nodes is accepted. */
  lemma Accepted(ids: seq<NodeId>, kinds: seq<NodeConfig>, arcs: seq<Arc>, cel: Cel)
    requires Fits(ids, kinds, arcs) && |ids| > 1 && kinds[0].Start? && kinds[|kinds| - 1].End?
    requires forall i :: 1 <= i < |kinds| ==> !kinds[i].Start?
    requires forall i :: 0 <= i < |ids| ==> NodeValid(Sample(ids, kinds, arcs), cel, NodeAt(ids, kinds, i))
    ensures ValidDefinition(Sample(ids, kinds, arcs), cel)
  {
    var def := Sample(ids, kinds, arcs);
    NoStarts(def.nodes[1..]);
    Found(ids, kinds, arcs, 0);
    assert def.nodes[|ids| - 1] in def.nodes;
    forall k | 0 <= k < |def.transitions|
      ensures def.transitions[k].from in Ids(def.nodes) && def.transitions[k].to in Ids(def.nodes)
    {
      Found(ids, kinds, arcs, arcs[k].from);
      Found(ids, kinds, arcs, arcs[k].to);
    }
    forall i {:trigger NodeValid(def, cel, def.nodes[i])} | 0 <= i < |def.nodes|
      ensures NodeValid(def, cel, def.nodes[i])
    {
      assert def.nodes[i] == NodeAt(ids, kinds, i);
    }
  }

  lemma {:induction false} FirstApproval(nodes: seq<Node>, i: nat)
    requires i < |nodes| && nodes[i].config.Approval? && forall j :: 0 <= j < i ==> !nodes[j].config.Approval?
    ensures DecideStart(nodes) == Some(nodes[i])
  {
    if i > 0 {
      FirstApproval(nodes[1..], i - 1);
    }
  }

  const APPROVED := SignalType.Approved

  const ROLE: Option<Role> := Some("role")

  function Approves(): NodeConfig {
    NodeConfig.Approval(ROLE, None, None, None)
  }

  /** An approval with its edge is valid. */
  lemma ApprovalValid(def: Definition, cel: Cel, node: Node)
    requires node.config == Approves() && node.contextWrites == []
    requires HasEdge(def.transitions, node.id, SignalType.Approved)
    ensures NodeValid(def, cel, node)
  {
  }

  /** A split whose branches complete straight into one and the same join is valid. */
  lemma BranchValid(def: Definition, branch: Node, edge: Transition, join: Node)
    requires FindNode(def.nodes, branch.id) == Some(branch) && branch.contextWrites == []
    requires CompletionSignal(branch.config) == Some(edge.onSignal)
    requires FindTransition(def.transitions, branch.id, edge.onSignal) == Some(edge)
    requires FindNode(def.nodes, edge.to) == Some(join) && join.config.ParallelJoin?
    ensures SplitBranchValid(def, branch.id) && BranchJoin(def, branch.id) == Some(edge.to)
  {
  }

  lemma TwoBranchesValid(def: Definition, x: NodeId, y: NodeId)
    requires SplitBranchValid(def, x) && SplitBranchValid(def, y) && BranchJoin(def, x) == BranchJoin(def, y)
    ensures SplitValid(def, [x, y])
  {
  }

  // ------------------------------------------------------------------ decisions

  /** An edge into a node that neither routes nor fans out over items decides what stopping there means. */
  lemma LandsAt(def: Definition, cel: Cel, ctx: Context, edge: Transition, node: Node)
    requires FindTransition(def.transitions, edge.from, edge.onSignal) == Some(edge)
    requires edge.onSignal.Approved? || edge.onSignal.Completed?
    requires FindNode(def.nodes, edge.to) == Some(node) && !node.Routes() && !node.config.ForEach?
    ensures DecideAdvance(def, cel, ctx, edge.from, edge.onSignal) == (Landing(def, cel, ctx, edge.to), EMPTY_TRACE)
  {
    assert Resolve(def, cel, ctx, edge.to) == (Landing(def, cel, ctx, edge.to), EMPTY_TRACE);
  }

  lemma LandsInRework(def: Definition, cel: Cel, ctx: Context, edge: Transition, node: Node)
    requires FindTransition(def.transitions, edge.from, edge.onSignal) == Some(edge) && edge.onSignal.Returned?
    requires FindNode(def.nodes, edge.to) == Some(node) && node.config.Approval?
    ensures DecideAdvance(def, cel, ctx, edge.from, edge.onSignal)
            == (Rework(node.id, node.AssigneeRole()), EMPTY_TRACE)
  {
    assert Resolve(def, cel, ctx, edge.to) == (Advance(node.id, node.AssigneeRole()), EMPTY_TRACE);
  }

  /** Target a node becomes when a split names it. */
  function TargetOf(node: Node): ParallelTarget {
    ParallelTarget(node.id, InstantiatedType(node.config), node.AssigneeRole(), None)
  }

  function TargetsOf(nodes: seq<Node>): (r: seq<ParallelTarget>)
    ensures |r| == |nodes|
  {
    seq(|nodes|, i requires 0 <= i < |nodes| => TargetOf(nodes[i]))
  }

  /** A split names these nodes, which can be branches. */
  predicate CanBranch(def: Definition, ids: seq<NodeId>, nodes: seq<Node>) {
    && |ids| == |nodes|
    && forall i :: 0 <= i < |ids| ==> FindNode(def.nodes, ids[i]) == Some(nodes[i]) && BranchType(nodes[i].config).Some?
  }

  lemma {:induction false} BranchTargets(def: Definition, ids: seq<NodeId>, nodes: seq<Node>)
    requires CanBranch(def, ids, nodes)
    ensures SplitTargets(def.nodes, ids) == Some(TargetsOf(nodes))
  {
    if ids != [] {
      BranchTargets(def, ids[1..], nodes[1..]);
      assert TargetsOf(nodes) == [TargetOf(nodes[0])] + TargetsOf(nodes[1..]);
    }
  }

  lemma SplitsInto(def: Definition, cel: Cel, ctx: Context, split: Node, nodes: seq<Node>)
    requires FindNode(def.nodes, split.id) == Some(split) && split.config.ParallelSplit?
    requires CanBranch(def, split.config.branchTargets, nodes)
    ensures Landing(def, cel, ctx, split.id) == AdvanceMulti(TargetsOf(nodes))
  {
    BranchTargets(def, split.config.branchTargets, nodes);
  }

  lemma SplitsInTwo(def: Definition, cel: Cel, ctx: Context, split: Node, x: Node, y: Node)
    requires FindNode(def.nodes, split.id) == Some(split) && split.config == ParallelSplit([x.id, y.id])
    requires FindNode(def.nodes, x.id) == Some(x) && BranchType(x.config).Some?
    requires FindNode(def.nodes, y.id) == Some(y) && BranchType(y.config).Some?
    ensures Landing(def, cel, ctx, split.id) == AdvanceMulti([TargetOf(x), TargetOf(y)])
  {
    SplitsInto(def, cel, ctx, split, [x, y]);
    assert TargetsOf([x, y]) == [TargetOf(x), TargetOf(y)];
  }

  // ------------------------------------------------------------------ scenes

  datatype Phase = Live | Done | Back

  datatype Mark = Mark(node: NodeId, round: int, phase: Phase)

  /** The marks of the activities in order, which joins have been satisfied in which round, and which activities were
      handed back. */
  datatype Scene = Scene(status: WorkflowStatus, marks: seq<Mark>, fired: seq<(NodeId, int)>, backs: seq<nat>)

  predicate Shows(a: Activity, m: Mark) {
    && a.node == m.node && a.round == m.round
    && match m.phase
       case Live => a.status.Active?
       case Done => a.status.Completed? && a.result == Some(ActivityResult.Approved)
       case Back => a.status.Completed? && a.result == Some(ActivityResult.Returned)
  }

  predicate AllShow(acts: seq<Activity>, marks: seq<Mark>) {
    |acts| == |marks| && forall i :: 0 <= i < |acts| ==> Shows(acts[i], marks[i])
  }

  /** Joins logged as satisfied, with the round, in order. */
  function JoinsPassed(log: seq<Event>): seq<(NodeId, int)> {
    if log == [] then []
    else JoinsPassed(log[..|log| - 1]) + Passing(log[|log| - 1].fact)
  }

  function Passing(fact: Fact): seq<(NodeId, int)> {
    if fact.JoinSatisfied? then [(fact.join, fact.round)] else []
  }

  predicate NoFan(log: seq<Event>) {
    forall i :: 0 <= i < |log| ==> !log[i].fact.ForEachFannedOut?
  }

  predicate LogTells(log: seq<Event>, fired: seq<(NodeId, int)>, backs: seq<nat>) {
    NoFan(log) && JoinsPassed(log) == fired && ReworkIds(log) == backs
  }

  predicate Looks(d: Db, def: Definition, s: Scene) {
    && d.def == def && d.status == s.status && d.context.None?
    && AllShow(d.activities, s.marks) && LogTells(d.log, s.fired, s.backs)
  }

  lemma LogPush(log: seq<Event>, e: Event, fired: seq<(NodeId, int)>, backs: seq<nat>)
    requires LogTells(log, fired, backs) && !e.fact.ForEachFannedOut?
    ensures LogTells(log + [e], fired + Passing(e.fact),
                     backs + if e.fact.ReturnedToRework? then [e.fact.activity] else [])
  {
    assert (log + [e])[..|log|] == log;
  }

  /** Facts a scene does not record. */
  predicate Plain(fact: Fact) {
    !fact.ForEachFannedOut? && !fact.JoinSatisfied? && !fact.ReturnedToRework?
  }

  lemma {:induction false} LogQuiet(log: seq<Event>, log': seq<Event>, fired: seq<(NodeId, int)>, backs: seq<nat>)
    requires LogTells(log, fired, backs) && log <= log' && forall i :: |log| <= i < |log'| ==> Plain(log'[i].fact)
    ensures LogTells(log', fired, backs)
    decreases |log'|
  {
    if log' != log {
      var init := log'[..|log'| - 1];
      LogQuiet(log, init, fired, backs);
      LogPush(init, log'[|log'| - 1], fired, backs);
      assert init + [log'[|log'| - 1]] == log';
    }
  }

  // ------------------------------------------------------------------ a review of a live activity

  function Says(signal: SignalType, a: nat, key: string): SignalCommand {
    SignalCommand(true, signal, Some(a), key, 1, None, None, None, None)
  }

  function Marked(signal: SignalType): Phase {
    if signal.Approved? then Done else Back
  }

  predicate Reviewable(d: Db, def: Definition, s: Scene, a: nat, signal: SignalType, node: Node) {
    && Looks(d, def, s) && (s.status.Active? || s.status.ReturnedWaiting?)
    && a < |s.marks| && s.marks[a].phase.Live?
    && FindNode(def.nodes, s.marks[a].node) == Some(node) && node.contextWrites == [] && node.config.Approval?
    && (signal.Approved? || signal.Returned?)
  }

  /** The scene once the activity is reviewed and before the graph moves. */
  function ReviewedScene(s: Scene, a: nat, signal: SignalType): Scene
    requires a < |s.marks|
  {
    s.(status := WorkflowStatus.Active, marks := s.marks[a := s.marks[a].(phase := Marked(signal))])
  }

  lemma SettledRows(d: Db, a: nat, node: Node, cmd: SignalCommand) returns (d1: Db)
    requires d.IsActive(a) && node.contextWrites == [] && (d.status.Active? || d.status.ReturnedWaiting?)
    ensures SettleSignal(d, a, node, cmd) == Ok(d1)
    ensures d1.def == d.def && d1.context == d.context && d1.status.Active?
    ensures d1.activities == d.activities[a := ReviewedRow(d.activities[a], cmd)]
    ensures d.log <= d1.log && forall i :: |d.log| <= i < |d1.log| ==> Plain(d1.log[i].fact)
  {
    var d0 := ReviewShape(d, a, cmd);
    d1 := SettleSignal(d, a, node, cmd).value;
  }

  lemma SignalSettles(env: Env, d: Db, a: nat, node: Node, cmd: SignalCommand, d1: Db, fuel: nat)
    requires d.IsActive(a) && cmd.activity == Some(a) && cmd.visible && !Blank(cmd.key) && !KeySeen(d, cmd.key)
    requires !d.status.IsTerminal() && FindNode(d.def.nodes, d.activities[a].node) == Some(node)
    requires SignalFits(node, cmd.signal, cmd.eventType) && !IsClaim(cmd.signal)
    requires SettleSignal(d, a, node, cmd) == Ok(d1) && a < |d1.activities|
    ensures Run(env, d, SignalStep(cmd), fuel) == MoveOn(env, d1, a, cmd.signal, fuel)
  {
  }

  lemma Reviews(env: Env, d: Db, def: Definition, s: Scene, a: nat, signal: SignalType, node: Node)
    returns (d1: Db, cmd: SignalCommand)
    requires Reviewable(d, def, s, a, signal, node)
    ensures Looks(d1, def, ReviewedScene(s, a, signal)) && cmd.signal == signal
    ensures forall fuel :: Run(env, d, SignalStep(cmd), fuel) == MoveOn(env, d1, a, signal, fuel)
  {
    var key := UnseenKey(d);
    cmd := Says(signal, a, key);
    assert Shows(d.activities[a], s.marks[a]);
    d1 := SettledRows(d, a, node, cmd);
    SignalAlwaysSettles(env, d, a, node, cmd, d1);
    ReviewedLooks(d, def, s, a, signal, cmd, d1);
  }

  lemma SignalAlwaysSettles(env: Env, d: Db, a: nat, node: Node, cmd: SignalCommand, d1: Db)
    requires d.IsActive(a) && cmd.activity == Some(a) && cmd.visible && !Blank(cmd.key) && !KeySeen(d, cmd.key)
    requires !d.status.IsTerminal() && FindNode(d.def.nodes, d.activities[a].node) == Some(node)
    requires SignalFits(node, cmd.signal, cmd.eventType) && !IsClaim(cmd.signal)
    requires SettleSignal(d, a, node, cmd) == Ok(d1) && a < |d1.activities|
    ensures forall fuel :: Run(env, d, SignalStep(cmd), fuel) == MoveOn(env, d1, a, cmd.signal, fuel)
  {
    forall fuel ensures Run(env, d, SignalStep(cmd), fuel) == MoveOn(env, d1, a, cmd.signal, fuel) {
      SignalSettles(env, d, a, node, cmd, d1, fuel);
    }
  }

  lemma ReviewedLooks(d: Db, def: Definition, s: Scene, a: nat, signal: SignalType, cmd: SignalCommand, d1: Db)
    requires Looks(d, def, s) && a < |s.marks| && s.marks[a].phase.Live? && cmd == Says(signal, a, cmd.key)
    requires signal.Approved? || signal.Returned?
    requires d1.def == d.def && d1.context == d.context && d1.status.Active?
    requires d1.activities == d.activities[a := ReviewedRow(d.activities[a], cmd)]
    requires d.log <= d1.log && forall i :: |d.log| <= i < |d1.log| ==> Plain(d1.log[i].fact)
    ensures Looks(d1, def, ReviewedScene(s, a, signal))
  {
    LogQuiet(d.log, d1.log, s.fired, s.backs);
    RowsShow(d.activities, s.marks, a, ReviewedRow(d.activities[a], cmd), s.marks[a].(phase := Marked(signal)));
  }

  lemma RowsShow(acts: seq<Activity>, marks: seq<Mark>, a: nat, row: Activity, mark: Mark)
    requires AllShow(acts, marks) && a < |acts| && Shows(row, mark)
    ensures AllShow(acts[a := row], marks[a := mark])
  {
  }

  // ------------------------------------------------------------------ moves from scene to scene

  lemma MoveIsDispatch(env: Env, d: Db, a: nat, signal: SignalType, outcome: AdvanceOutcome, fuel: nat)
    requires a < |d.activities|
    requires DecideAdvance(d.def, env.cel, d.Ctx(), d.activities[a].node, signal) == (outcome, EMPTY_TRACE)
    ensures MoveOn(env, d, a, signal, fuel) == Dispatch(env, d, outcome, None, a, d.activities[a].round, fuel)
  {
    assert AppendMerges(d, d.activities[a].node, [], d.activities[a].round) == d;
  }

  predicate Schedules(def: Definition, target: Node) {
    FindNode(def.nodes, target.id) == Some(target) && target.IsActivity()
  }

  /** The decision a scene takes at one of its marks. */
  function Decision(cel: Cel, def: Definition, s: Scene, a: nat, signal: SignalType): (AdvanceOutcome, ResolveTrace)
    requires a < |s.marks|
  {
    DecideAdvance(def, cel, map[], s.marks[a].node, signal)
  }

  lemma ScheduledLooks(d: Db, def: Definition, s: Scene, node: NodeId, role: Option<Role>, round: int, via: Via, d': Db)
    requires Looks(d, def, s) && Scheduled(d, node, role, round, via, d')
    ensures Looks(d', def, s.(marks := s.marks + [Mark(node, round, Live)]))
  {
    LogPush(d.log, d'.log[|d.log|], s.fired, s.backs);
  }

  lemma AdvanceLooks(d: Db, def: Definition, s: Scene, target: Node, role: Option<Role>, round: int)
    requires Looks(d, def, s) && Schedules(def, target)
    ensures var r := AdvanceTo(d, target, role, round);
            r.Ok? && Looks(r.value, def, s.(marks := s.marks + [Mark(target.id, round, Live)]))
  {
    ScheduleShape(d, target, role, round, Linear);
    ScheduledLooks(d, def, s, target.id, role, round, Linear, ScheduleActivity(d, target, role, round, Linear).value.0);
  }

  predicate LooksAfter(r: Result<Db>, def: Definition, s: Scene) {
    r.Ok? && Looks(r.value, def, s)
  }

  /** The marks of freshly scheduled activities. */
  function LiveAll(nodes: seq<Node>, round: int): (r: seq<Mark>)
    ensures |r| == |nodes|
  {
    seq(|nodes|, i requires 0 <= i < |nodes| => Mark(nodes[i].id, round, Live))
  }

  lemma FirstScheduled(d: Db, def: Definition, s: Scene, nodes: seq<Node>, round: int) returns (d1: Db)
    requires Looks(d, def, s) && nodes != [] && Schedules(def, nodes[0])
    ensures Looks(d1, def, s.(marks := s.marks + [Mark(nodes[0].id, round, Live)]))
    ensures ScheduleTargets(d, TargetsOf(nodes), round, false)
            == ScheduleTargets(d1, TargetsOf(nodes[1..]), round, false)
  {
    var x := nodes[0];
    ScheduleShape(d, x, x.AssigneeRole(), round, Fanned(false, None));
    d1 := ScheduleActivity(d, x, x.AssigneeRole(), round, Fanned(false, None)).value.0;
    ScheduledLooks(d, def, s, x.id, x.AssigneeRole(), round, Fanned(false, None), d1);
    assert TargetsOf(nodes)[1..] == TargetsOf(nodes[1..]);
  }

  lemma LiveFirst(marks: seq<Mark>, nodes: seq<Node>, round: int)
    requires nodes != []
    ensures marks + [Mark(nodes[0].id, round, Live)] + LiveAll(nodes[1..], round) == marks + LiveAll(nodes, round)
  {
  }

  predicate AllSchedule(def: Definition, nodes: seq<Node>) {
    forall i :: 0 <= i < |nodes| ==> Schedules(def, nodes[i])
  }

  lemma {:induction false} AllScheduled(d: Db, def: Definition, s: Scene, nodes: seq<Node>, round: int)
    requires Looks(d, def, s) && AllSchedule(def, nodes)
    ensures LooksAfter(ScheduleTargets(d, TargetsOf(nodes), round, false), def,
                       s.(marks := s.marks + LiveAll(nodes, round)))
    decreases |nodes|
  {
    if nodes == [] {
      assert s.marks + LiveAll(nodes, round) == s.marks;
    } else {
      var d1 := FirstScheduled(d, def, s, nodes, round);
      var s1 := s.(marks := s.marks + [Mark(nodes[0].id, round, Live)]);
      AllScheduled(d1, def, s1, nodes[1..], round);
      LiveFirst(s.marks, nodes, round);
    }
  }

  lemma MovesInto(env: Env, d: Db, def: Definition, s: Scene, a: nat, signal: SignalType, nodes: seq<Node>, fuel: nat)
    requires Looks(d, def, s) && a < |s.marks| && nodes != [] && AllSchedule(def, nodes)
    requires Decision(env.cel, def, s, a, signal) == (AdvanceMulti(TargetsOf(nodes)), EMPTY_TRACE)
    ensures LooksAfter(MoveOn(env, d, a, signal, fuel), def, s.(marks := s.marks + LiveAll(nodes, s.marks[a].round)))
  {
    var targets, round := TargetsOf(nodes), s.marks[a].round;
    assert Shows(d.activities[a], s.marks[a]);
    MoveIsDispatch(env, d, a, signal, AdvanceMulti(targets), fuel);
    var d1 := MarkFanOut(d, targets, None, a, round);
    LogPush(d.log, d1.log[|d.log|], s.fired, s.backs);
    AllScheduled(d1, def, s, nodes, round);
    FansOut(env, d, targets, a, round, fuel);
  }

  lemma MovesInTwo(env: Env, d: Db, def: Definition, s: Scene, a: nat, signal: SignalType, x: Node, y: Node, fuel: nat)
    requires Looks(d, def, s) && a < |s.marks| && Schedules(def, x) && Schedules(def, y)
    requires Decision(env.cel, def, s, a, signal) == (AdvanceMulti([TargetOf(x), TargetOf(y)]), EMPTY_TRACE)
    ensures LooksAfter(MoveOn(env, d, a, signal, fuel), def,
                       s.(marks := s.marks + [Mark(x.id, s.marks[a].round, Live), Mark(y.id, s.marks[a].round, Live)]))
  {
    assert TargetsOf([x, y]) == [TargetOf(x), TargetOf(y)];
    assert LiveAll([x, y], s.marks[a].round)
        == [Mark(x.id, s.marks[a].round, Live), Mark(y.id, s.marks[a].round, Live)];
    MovesInto(env, d, def, s, a, signal, [x, y], fuel);
  }

  lemma FansOut(env: Env, d: Db, targets: seq<ParallelTarget>, a: nat, round: int, fuel: nat)
    requires a < |d.activities| && targets != []
    ensures Dispatch(env, d, AdvanceMulti(targets), None, a, round, fuel)
         == ScheduleTargets(MarkFanOut(d, targets, None, a, round), targets, round, false)
  {
  }

  /** The highest round of a scene whose marks all lie in it. */
  lemma RoundOf(acts: seq<Activity>, marks: seq<Mark>, round: nat)
    requires AllShow(acts, marks) && marks != [] && forall i :: 0 <= i < |marks| ==> marks[i].round == round
    ensures MaxRound(acts) == round
  {
    MaxRoundIsMax(acts);
    assert Shows(acts[0], marks[0]);
    forall i | 0 <= i < |acts| ensures acts[i].round == round {
      assert Shows(acts[i], marks[i]);
    }
  }

  lemma MovesBack(env: Env, d: Db, def: Definition, s: Scene, a: nat, target: Node, fuel: nat)
    requires Looks(d, def, s) && s.status.Active? && a < |s.marks| && Schedules(def, target)
    requires forall i :: 0 <= i < |s.marks| ==> s.marks[i].round == 1
    requires RoundLimit(env, def) >= 2
    requires Decision(env.cel, def, s, a, SignalType.Returned)
             == (Rework(target.id, target.AssigneeRole()), EMPTY_TRACE)
    ensures LooksAfter(MoveOn(env, d, a, SignalType.Returned, fuel), def,
                       Scene(WorkflowStatus.ReturnedWaiting, s.marks + [Mark(target.id, 2, Live)], s.fired,
                             s.backs + [|s.marks|]))
  {
    assert Shows(d.activities[a], s.marks[a]);
    RoundOf(d.activities, s.marks, 1);
    MoveIsDispatch(env, d, a, SignalType.Returned, Rework(target.id, target.AssigneeRole()), fuel);
    var d1, d' := HandBackGoes(env, d, target.id, target.AssigneeRole(), a);
    HandedBackLooks(d, def, s, target.id, target.AssigneeRole(), d.activities[a].node, d1, d');
    assert Dispatch(env, d, Rework(target.id, target.AssigneeRole()), None, a, d.activities[a].round, fuel)
        == HandBack(env, d, target.id, target.AssigneeRole(), a);
  }

  lemma HandedBackLooks(d: Db, def: Definition, s: Scene, node: NodeId, role: Option<Role>, from: NodeId, d1: Db,
                        d': Db)
    requires Looks(d, def, s) && HandedBack(d, node, role, from, d1, d') && MaxRound(d.activities) == 1
    ensures Looks(d', def,
                  Scene(WorkflowStatus.ReturnedWaiting, s.marks + [Mark(node, 2, Live)], s.fired,
                        s.backs + [|s.marks|]))
  {
    ScheduledLooks(d, def, s, node, role, 2, Linear, d1);
    LogPush(d1.log, d'.log[|d1.log|], s.fired, s.backs);
  }

  // ------------------------------------------------------------------ joins of a scene

  lemma {:induction false} NoFanNoCount(log: seq<Event>, join: NodeId, round: int)
    requires NoFan(log)
    ensures ForEachBranchCount(log, join, round) == None
  {
    if log != [] {
      NoFanNoCount(log[..|log| - 1], join, round);
    }
  }

  lemma {:induction false} OneArrived(acts: seq<Activity>, i: nat, branches: seq<NodeId>, round: int)
    requires i < |acts| && Arrived(acts[i], branches, round)
    ensures CountArrived(acts, branches, round) >= 1
  {
    if i < |acts| - 1 {
      OneArrived(acts[..|acts| - 1], i, branches, round);
    }
  }

  predicate MarkArrived(m: Mark, branches: seq<NodeId>, round: int) {
    m.phase.Done? && m.round == round && m.node in branches
  }

  /** How many marks have arrived, when they are exactly those at the given positions. */
  lemma {:induction false} ArrivedAt(acts: seq<Activity>, marks: seq<Mark>, branches: seq<NodeId>, round: int,
                                     at: seq<nat>)
    requires AllShow(acts, marks) && Increasing(at) && forall i :: 0 <= i < |at| ==> at[i] < |marks|
    requires forall k :: 0 <= k < |marks| ==> (MarkArrived(marks[k], branches, round) <==> k in at)
    ensures CountArrived(acts, branches, round) == |at|
  {
    if acts != [] {
      var n := |acts| - 1;
      assert Shows(acts[n], marks[n]);
      var last := at != [] && at[|at| - 1] == n;
      assert last <==> n in at by {
        if n in at {
          var i :| 0 <= i < |at| && at[i] == n;
          assert i == |at| - 1;
        }
      }
      var rest := if last then at[..|at| - 1] else at;
      forall k | 0 <= k < n ensures MarkArrived(marks[..n][k], branches, round) <==> k in rest {
        assert MarkArrived(marks[k], branches, round) <==> k in at;
        if last && k in at {
          var i :| 0 <= i < |at| && at[i] == k;
          assert at[..|at| - 1][i] == k;
        }
      }
      RestBelow(at, rest, n, last);
      ArrivedAt(acts[..n], marks[..n], branches, round, rest);
    } else {
      assert at == [];
    }
  }

  lemma RestBelow(at: seq<nat>, rest: seq<nat>, n: nat, last: bool)
    requires Increasing(at) && (forall i :: 0 <= i < |at| ==> at[i] <= n) && (last <==> n in at)
    requires last ==> at != [] && at[|at| - 1] == n
    requires rest == if last then at[..|at| - 1] else at
    ensures forall i :: 0 <= i < |rest| ==> rest[i] < n
  {
    forall i | 0 <= i < |rest| ensures rest[i] < n {
      assert rest[i] == at[i];
      assert !last ==> at[i] in at;
    }
  }

  /** A join that counts the given sources, `arrived` of which have arrived in the round. */
  predicate Counts(def: Definition, s: Scene, join: Node, sources: seq<NodeId>, round: int, at: seq<nat>) {
    && FindNode(def.nodes, join.id) == Some(join) && join.config.ParallelJoin?
    && Sources(Incoming(def.transitions, join.id)) == sources
    && Increasing(at) && (forall i :: 0 <= i < |at| ==> at[i] < |s.marks|)
    && (forall k :: 0 <= k < |s.marks| ==> (MarkArrived(s.marks[k], sources, round) <==> k in at))
  }

  lemma SceneExpects(d: Db, def: Definition, s: Scene, join: Node, sources: seq<NodeId>, round: int, at: seq<nat>)
    requires Looks(d, def, s) && Counts(def, s, join, sources, round, at)
    ensures Expectation(d, join.id, round) == Ok((|sources|, sources))
    ensures CountArrived(d.activities, sources, round) == |at|
  {
    NoFanNoCount(d.log, join.id, round);
    ArrivedAt(d.activities, s.marks, sources, round, at);
  }

  lemma MoveReaches(env: Env, d: Db, def: Definition, s: Scene, a: nat, signal: SignalType, join: Node, fuel: nat)
    requires Looks(d, def, s) && a < |s.marks| && FindNode(def.nodes, join.id) == Some(join)
    requires join.config.ParallelJoin?
    requires Decision(env.cel, def, s, a, signal) == (AdvanceOutcome.Advance(join.id, None), EMPTY_TRACE)
    ensures MoveOn(env, d, a, signal, fuel) == ReachJoin(env, d, join, a, s.marks[a].round, fuel)
  {
    assert Shows(d.activities[a], s.marks[a]);
    MoveIsDispatch(env, d, a, signal, AdvanceOutcome.Advance(join.id, None), fuel);
  }

  lemma ArrivedLooks(d: Db, def: Definition, s: Scene, a: nat, join: NodeId, round: int)
    requires Looks(d, def, s) && a < |d.activities|
    ensures Looks(Append(d, Fact.BranchReachedJoin(d.activities[a].node, join, round), None), def, s)
  {
    LogPush(d.log, Event(MaxNumber(d.log) + 1, Fact.BranchReachedJoin(d.activities[a].node, join, round), None),
            s.fired, s.backs);
  }

  lemma MovesToWait(env: Env, d: Db, def: Definition, s: Scene, a: nat, signal: SignalType, join: Node,
                    sources: seq<NodeId>, at: seq<nat>, fuel: nat)
    requires Looks(d, def, s) && a < |s.marks| && Counts(def, s, join, sources, s.marks[a].round, at)
    requires Decision(env.cel, def, s, a, signal) == (AdvanceOutcome.Advance(join.id, None), EMPTY_TRACE)
    requires join.config.strategy.WaitAll? && |at| < |sources|
    ensures LooksAfter(MoveOn(env, d, a, signal, fuel), def, s)
  {
    MoveReaches(env, d, def, s, a, signal, join, fuel);
    ArrivedLooks(d, def, s, a, join.id, s.marks[a].round);
    SceneExpects(Append(d, Fact.BranchReachedJoin(d.activities[a].node, join.id, s.marks[a].round), None), def, s, join,
                 sources, s.marks[a].round, at);
  }

  lemma MovesPast(env: Env, d: Db, def: Definition, s: Scene, a: nat, signal: SignalType, join: Node,
                  sources: seq<NodeId>, at: seq<nat>, target: Node, fuel: nat)
    requires Looks(d, def, s) && a < |s.marks| && Counts(def, s, join, sources, s.marks[a].round, at) && fuel > 0
    requires Decision(env.cel, def, s, a, signal) == (AdvanceOutcome.Advance(join.id, None), EMPTY_TRACE)
    requires join.config.strategy.WaitAll? && |at| >= |sources|
    requires DecideAdvance(def, env.cel, map[], join.id, SignalType.Approved)
             == (AdvanceOutcome.Advance(target.id, target.AssigneeRole()), EMPTY_TRACE)
    requires Schedules(def, target)
    ensures LooksAfter(MoveOn(env, d, a, signal, fuel), def,
                       s.(marks := s.marks + [Mark(target.id, s.marks[a].round, Live)],
                          fired := s.fired + [(join.id, s.marks[a].round)]))
  {
    var round := s.marks[a].round;
    MoveReaches(env, d, def, s, a, signal, join, fuel);
    ArrivedLooks(d, def, s, a, join.id, round);
    var d1 := Append(d, Fact.BranchReachedJoin(d.activities[a].node, join.id, round), None);
    SceneExpects(d1, def, s, join, sources, round, at);
    var d2 := Append(d1, JoinSatisfied(join.id, |at|, |sources|, round), None);
    LogPush(d1.log, d2.log[|d1.log|], s.fired, s.backs);
    SatisfiedMoves(env, d1, d2, join, sources, |at|, a, round, target, fuel);
    AdvanceLooks(d2, def, s.(fired := s.fired + [(join.id, round)]), target, target.AssigneeRole(), round);
  }

  lemma SatisfiedMoves(env: Env, d1: Db, d2: Db, join: Node, sources: seq<NodeId>, arrived: nat, a: nat, round: int,
                       target: Node, fuel: nat)
    requires Expectation(d1, join.id, round) == Ok((|sources|, sources))
    requires CountArrived(d1.activities, sources, round) == arrived
    requires join.config.ParallelJoin? && join.config.strategy.WaitAll? && arrived >= |sources| && fuel > 0
    requires d2 == Append(d1, JoinSatisfied(join.id, arrived, |sources|, round), None) && a < |d1.activities|
    requires DecideAdvance(d2.def, env.cel, d2.Ctx(), join.id, SignalType.Approved)
             == (AdvanceOutcome.Advance(target.id, target.AssigneeRole()), EMPTY_TRACE)
    requires Schedules(d2.def, target)
    ensures TrySatisfyJoin(env, d1, join, a, round, Some(a), fuel)
            == AdvanceTo(d2, target, target.AssigneeRole(), round)
  {
    assert SatisfyJoin(d1, join, arrived, |sources|, round, Some(a)) == d2;
    assert AppendMerges(d2, d2.activities[a].node, [], round) == d2;
    assert PassJoin(env, d2, join.id, a, round, fuel - 1)
        == Dispatch(env, d2, AdvanceOutcome.Advance(target.id, target.AssigneeRole()), None, a, round, fuel - 1);
  }

  // ------------------------------------------------------------------ runs

  /** A committed start and signals lead to the scene. */
  predicate Reached(env: Env, cmd: StartCommand, steps: seq<Step>, fuel: nat, s: Scene) {
    && StartInstance(env, cmd).Ok?
    && (forall i :: 0 <= i < |steps| ==> steps[i].SignalStep?)
    && Looks(RunAll(env, Began(env, cmd), steps, fuel), cmd.def, s)
  }

  function Bare(def: Definition): StartCommand {
    StartCommand(def, None, None)
  }

  lemma Begins(env: Env, def: Definition, entry: Node, fuel: nat)
    requires ValidDefinition(def, env.cel) && DecideStart(def.nodes) == Some(entry) && Schedules(def, entry)
    ensures Reached(env, Bare(def), [], fuel, Scene(WorkflowStatus.Active, [Mark(entry.id, 1, Live)], [], []))
  {
    var d := Append(NewInstance(def, None), Started(None), None);
    assert LogTells([], [], []);
    LogPush([], Event(1, Started(None), None), [], []);
    assert d.log == [] + [Event(1, Started(None), None)];
    var s := Scene(WorkflowStatus.Active, [], [], []);
    AdvanceLooks(d, def, s, entry, entry.AssigneeRole(), 1);
    assert s.marks + [Mark(entry.id, 1, Live)] == [Mark(entry.id, 1, Live)];
    StartsAt(env, def, d, entry);
  }

  lemma StartsAt(env: Env, def: Definition, d: Db, entry: Node)
    requires ValidDefinition(def, env.cel) && DecideStart(def.nodes) == Some(entry)
    requires FindNode(def.nodes, entry.id) == Some(entry)
    requires d == Append(NewInstance(def, None), Started(None), None)
    ensures StartInstance(env, Bare(def)) == AdvanceTo(d, entry, entry.AssigneeRole(), 1)
  {
  }

  lemma ReachedMore(env: Env, cmd: StartCommand, steps: seq<Step>, fuel: nat, s: Scene, step: Step, s': Scene)
    requires Reached(env, cmd, steps, fuel, s) && step.SignalStep?
    requires LooksAfter(Run(env, RunAll(env, Began(env, cmd), steps, fuel), step, fuel), cmd.def, s')
    ensures Reached(env, cmd, steps + [step], fuel, s')
  {
    assert (steps + [step])[..|steps|] == steps;
  }

  lemma SignalsAreClean(env: Env, d: Db, steps: seq<Step>, fuel: nat)
    requires forall i :: 0 <= i < |steps| ==> steps[i].SignalStep?
    ensures CleanRun(env, d, steps, fuel)
  {
  }
}
