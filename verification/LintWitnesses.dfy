/** Accepted definitions that lint is wrong about, and one that hangs after a fan-out over nothing. */
module LintWitnesses {
  import opened Core
  import opened Routing
  import opened Validation
  import opened Database
  import opened Engine
  import opened Runs
  import opened Lint
  import opened LintSoundness
  import opened Departures
  import opened Samples

  // ------------------------------------------------------------------ a fan-out over items

  /** Start, an approval, a ForEach over its template, the template's join, and an end. */
  function FanKinds(ids: seq<NodeId>, strategy: JoinStrategy): seq<NodeConfig>
    requires |ids| == 6
  {
    [NodeConfig.Start, Approves(), NodeConfig.ForEach("items", ids[3], ids[4], None), Approves(),
     NodeConfig.ParallelJoin(strategy),
     NodeConfig.End(None)]
  }

  const FAN_ARCS: seq<Arc> := [Arc(0, 1, APPROVED), Arc(1, 2, APPROVED), Arc(3, 4, APPROVED), Arc(4, 5, APPROVED)]

  predicate FanIds(ids: seq<NodeId>) {
    |ids| == 6 && forall i, j :: 0 <= i < j < 6 ==> ids[i] != ids[j]
  }

  function Fan(ids: seq<NodeId>, strategy: JoinStrategy): Definition
    requires FanIds(ids)
  {
    Sample(ids, FanKinds(ids, strategy), FAN_ARCS)
  }

  function FanNode(ids: seq<NodeId>, strategy: JoinStrategy, i: nat): Node
    requires FanIds(ids) && i < 6
  {
    NodeAt(ids, FanKinds(ids, strategy), i)
  }

  lemma FanFound(ids: seq<NodeId>, strategy: JoinStrategy, i: nat)
    requires FanIds(ids) && i < 6
    ensures FindNode(Fan(ids, strategy).nodes, ids[i]) == Some(FanNode(ids, strategy, i))
    ensures FanNode(ids, strategy, i) in Fan(ids, strategy).nodes
  {
    Found(ids, FanKinds(ids, strategy), FAN_ARCS, i);
    assert Fan(ids, strategy).nodes[i] == FanNode(ids, strategy, i);
  }

  lemma FanEdge(ids: seq<NodeId>, strategy: JoinStrategy, k: nat)
    requires FanIds(ids) && k < 4
    ensures var ts := Fan(ids, strategy).transitions;
            var edge := Transition(ids[FAN_ARCS[k].from], ids[FAN_ARCS[k].to], APPROVED);
            FindTransition(ts, edge.from, APPROVED) == Some(edge) && HasEdge(ts, edge.from, APPROVED) && edge in ts
  {
    ArcFollowed(ids, FanKinds(ids, strategy), FAN_ARCS, k);
    assert Fan(ids, strategy).transitions[k] == EdgeAt(ids, FAN_ARCS, k);
  }

  lemma FanEachValid(ids: seq<NodeId>, strategy: JoinStrategy, cel: Cel)
    requires FanIds(ids) && cel.compiles("items")
    ensures NodeValid(Fan(ids, strategy), cel, FanNode(ids, strategy, 2))
  {
    FanFound(ids, strategy, 3);
    FanFound(ids, strategy, 4);
    FanEdge(ids, strategy, 2);
    assert ForEachValid(Fan(ids, strategy), cel, FanNode(ids, strategy, 2));
  }

  lemma FanJoinValid(ids: seq<NodeId>, strategy: JoinStrategy, cel: Cel)
    requires FanIds(ids) && (strategy.WaitAll? || strategy.WaitAny?)
    ensures NodeValid(Fan(ids, strategy), cel, FanNode(ids, strategy, 4))
  {
    FanEdge(ids, strategy, 3);
    FanFound(ids, strategy, 2);
    assert ForEachFeeds(Fan(ids, strategy).nodes, ids[4]);
    assert JoinValid(Fan(ids, strategy), FanNode(ids, strategy, 4));
  }

  lemma FanNodeValid(ids: seq<NodeId>, strategy: JoinStrategy, cel: Cel, i: nat)
    requires FanIds(ids) && cel.compiles("items") && (strategy.WaitAll? || strategy.WaitAny?) && i < 6
    ensures NodeValid(Fan(ids, strategy), cel, FanNode(ids, strategy, i))
  {
    if i == 1 || i == 3 {
      FanEdge(ids, strategy, if i == 1 then 1 else 2);
      ApprovalValid(Fan(ids, strategy), cel, FanNode(ids, strategy, i));
    } else if i == 2 {
      FanEachValid(ids, strategy, cel);
    } else if i == 4 {
      FanJoinValid(ids, strategy, cel);
    }
  }

  lemma FanAccepted(ids: seq<NodeId>, strategy: JoinStrategy, cel: Cel)
    requires FanIds(ids) && cel.compiles("items") && (strategy.WaitAll? || strategy.WaitAny?)
    ensures ValidDefinition(Fan(ids, strategy), cel)
  {
    forall i | 0 <= i < 6
      ensures NodeValid(Sample(ids, FanKinds(ids, strategy), FAN_ARCS), cel, NodeAt(ids, FanKinds(ids, strategy), i))
    {
      FanNodeValid(ids, strategy, cel, i);
    }
    Accepted(ids, FanKinds(ids, strategy), FAN_ARCS, cel);
  }

  /** The decision past the approval is the fan-out over the items, whatever they are. */
  lemma FansOver(def: Definition, cel: Cel, ctx: Context, edge: Transition, fan: Node, template: Node, items: seq<Json>)
    requires FindTransition(def.transitions, edge.from, APPROVED) == Some(edge) && edge.onSignal == APPROVED
    requires FindNode(def.nodes, edge.to) == Some(fan) && fan.config.ForEach? && fan.config.maxFanoutRaw.None?
    requires FindNode(def.nodes, fan.config.branchTemplate) == Some(template) && template.config.Approval?
    requires cel.items(fan.config.itemsPath, ctx) == Some(items)
    ensures DecideAdvance(def, cel, ctx, edge.from, APPROVED)
         == (AdvanceMulti(ForEachTargets(template, items)),
             ResolveTrace([], Some(FanOut(fan.id, fan.config.joinTarget))))
  {
    assert Landing(def, cel, ctx, edge.to) == AdvanceMulti(ForEachTargets(template, items));
    assert Resolve(def, cel, ctx, edge.to)
        == (AdvanceMulti(ForEachTargets(template, items)),
            ResolveTrace([], Some(FanOut(fan.id, fan.config.joinTarget))));
  }

  lemma FanDecides(ids: seq<NodeId>, strategy: JoinStrategy, cel: Cel, ctx: Context, items: seq<Json>)
    requires FanIds(ids) && cel.items("items", ctx) == Some(items)
    ensures DecideAdvance(Fan(ids, strategy), cel, ctx, ids[1], APPROVED)
         == (AdvanceMulti(ForEachTargets(FanNode(ids, strategy, 3), items)),
             ResolveTrace([], Some(FanOut(ids[2], ids[4]))))
  {
    FanEdge(ids, strategy, 1);
    FanFound(ids, strategy, 2);
    FanFound(ids, strategy, 3);
    FansOver(Fan(ids, strategy), cel, ctx, Transition(ids[1], ids[2], APPROVED), FanNode(ids, strategy, 2),
             FanNode(ids, strategy, 3), items);
  }

  // ------------------------------------------------------------------ what lint makes of it

  /** Edges lead only from the listed nodes. */
  lemma {:induction false} NoEdgesFrom(ts: seq<Transition>, from: NodeId)
    requires forall t :: t in ts ==> t.from != from
    ensures EdgeTargets(ts, from) == []
  {
    if ts != [] {
      NoEdgesFrom(ts[1..], from);
    }
  }

  lemma {:induction false} EdgeTargetsOf(ts: seq<Transition>, from: NodeId, to: NodeId)
    requires to in EdgeTargets(ts, from)
    ensures exists t :: t in ts && t.from == from && t.to == to
  {
    if !(ts[0].from == from && ts[0].to == to) {
      EdgeTargetsOf(ts[1..], from, to);
    }
  }

  lemma {:induction false} OneStart(nodes: seq<Node>, rest: seq<Node>)
    requires forall i :: 0 <= i < |rest| ==> !rest[i].config.Start?
    requires nodes != [] && nodes[0].config.Start? && nodes[1..] == rest
    ensures Starts(nodes) == [nodes[0].id]
  {
    NoStartIds(rest);
  }

  lemma {:induction false} NoStartIds(nodes: seq<Node>)
    requires forall i :: 0 <= i < |nodes| ==> !nodes[i].config.Start?
    ensures Starts(nodes) == []
  {
    if nodes != [] {
      NoStartIds(nodes[1..]);
    }
  }

  lemma SampleStarts(ids: seq<NodeId>, kinds: seq<NodeConfig>, arcs: seq<Arc>)
    requires Fits(ids, kinds, arcs) && |ids| > 0 && kinds[0].Start? && forall i :: 1 <= i < |kinds| ==> !kinds[i].Start?
    ensures Starts(Sample(ids, kinds, arcs).nodes) == [ids[0]]
  {
    var nodes := Sample(ids, kinds, arcs).nodes;
    OneStart(nodes, nodes[1..]);
  }

  lemma FanNamesOnlyEdges(ids: seq<NodeId>, i: nat)
    requires FanIds(ids) && i < 3
    ensures Exists(Fan(ids, WaitAll), ids[i])
    ensures StaticTargets(Fan(ids, WaitAll), FindNode(Fan(ids, WaitAll).nodes, ids[i]).value)
            == EdgeTargets(Fan(ids, WaitAll).transitions, ids[i])
  {
    FanFound(ids, WaitAll, i);
    var ts := EdgeTargets(Fan(ids, WaitAll).transitions, ids[i]);
    assert ts + [] == ts;
  }

  lemma FanArcsEarly(ids: seq<NodeId>, i: nat, to: NodeId)
    requires FanIds(ids) && i < 3 && to in EdgeTargets(Fan(ids, WaitAll).transitions, ids[i])
    ensures to == ids[1] || to == ids[2]
  {
    var ts := Fan(ids, WaitAll).transitions;
    EdgeTargetsOf(ts, ids[i], to);
    var t :| t in ts && t.from == ids[i] && t.to == to;
    var k :| 0 <= k < |ts| && ts[k] == t;
    assert ts[k] == EdgeAt(ids, FAN_ARCS, k);
  }

  lemma FanStaysEarly(ids: seq<NodeId>, x: NodeId, y: NodeId)
    requires FanIds(ids) && x in {ids[0], ids[1], ids[2]} && StaticEdge(Fan(ids, WaitAll), x, y)
    ensures y in {ids[1], ids[2]}
  {
    var i: nat := if x == ids[0] then 0 else if x == ids[1] then 1 else 2;
    FanNamesOnlyEdges(ids, i);
    FanArcsEarly(ids, i, y);
  }

  lemma FanTemplateUnreachable(ids: seq<NodeId>)
    requires FanIds(ids)
    ensures Justified(Fan(ids, WaitAll), UnreachableNode(ids[3]))
  {
    var def := Fan(ids, WaitAll);
    SampleStarts(ids, FanKinds(ids, WaitAll), FAN_ARCS);
    FanFound(ids, WaitAll, 3);
    var seen := {ids[0], ids[1], ids[2]};
    forall x, y | x in seen && StaticEdge(def, x, y) ensures y in seen {
      FanStaysEarly(ids, x, y);
    }
    if Reaches(def, ids[0], ids[3]) {
      ClosedContainsReachable(def, seen, ids[0], ids[3]);
    }
  }

  /** The gate accepts the definition, the token fans out to the template once per item, and lint reports the
      template as unreachable: lint does not follow a ForEach. */
  lemma ForEachFalseAlarm(ids: seq<NodeId>, cel: Cel, ctx: Context, items: seq<Json>)
    requires FanIds(ids) && cel.compiles("items") && cel.items("items", ctx) == Some(items)
    ensures var def := Fan(ids, WaitAll);
            && ValidDefinition(def, cel)
            && Justified(def, UnreachableNode(ids[3]))
            && var (outcome, _) := DecideAdvance(def, cel, ctx, ids[1], APPROVED);
               outcome.AdvanceMulti? && |outcome.targets| == |items|
                   && forall i :: 0 <= i < |items| ==> outcome.targets[i].node == ids[3]
  {
    FanAccepted(ids, WaitAll, cel);
    FanTemplateUnreachable(ids);
    FanDecides(ids, WaitAll, cel, ctx, items);
  }

  // ------------------------------------------------------------------ a fan-out over nothing

  lemma {:induction false} TemplateAt(nodes: seq<Node>, join: NodeId, i: nat)
    requires i < |nodes| && nodes[i].config.ForEach? && nodes[i].config.joinTarget == join
    requires forall j :: 0 <= j < i ==> !nodes[j].config.ForEach?
    ensures ForEachTemplate(nodes, join) == Some(nodes[i].config.branchTemplate)
  {
    if i > 0 {
      TemplateAt(nodes[1..], join, i - 1);
    }
  }

  /** A ForEach in front of a join that waits for any of its branches. */
  predicate FansInto(def: Definition, cel: Cel, entry: Node, fan: FanOut, template: NodeId) {
    && FindNode(def.nodes, entry.id) == Some(entry) && entry.config == Approves() && entry.contextWrites == []
    && DecideAdvance(def, cel, map[], entry.id, APPROVED) == (AdvanceMulti([]), ResolveTrace([], Some(fan)))
    && FindNode(def.nodes, fan.joinTarget).Some? && StrategyOf(FindNode(def.nodes, fan.joinTarget).value).WaitAny?
    && ForEachTemplate(def.nodes, fan.joinTarget) == Some(template) && template != entry.id
  }

  function EmptyScene(entry: Node): Scene {
    Scene(WorkflowStatus.Active, [Mark(entry.id, 1, Done)], [], [])
  }

  lemma EmptyHangs(env: Env, def: Definition, entry: Node, fan: FanOut, template: NodeId, d: Db, fuel: nat)
    requires FansInto(def, env.cel, entry, fan, template) && Looks(d, def, EmptyScene(entry))
    ensures var r := MoveOn(env, d, 0, APPROVED, fuel);
            r.Ok? && Hung(r.value)
  {
    assert Shows(d.activities[0], Mark(entry.id, 1, Done));
    assert CountArrived(d.activities[..0], [template], 1) == 0;
    assert EmptyFanOut(d, fan, 0);
    EmptyForEachExactly(env, d, fan, 0, 1, fuel);
    assert AppendMerges(d, d.activities[0].node, [], 1) == d;
    assert MoveOn(env, d, 0, APPROVED, fuel) == Dispatch(env, d, AdvanceMulti([]), Some(fan), 0, 1, fuel);
  }

  lemma EmptyRun(env: Env, def: Definition, entry: Node, fan: FanOut, template: NodeId, fuel: nat)
    returns (steps: seq<Step>)
    requires ValidDefinition(def, env.cel) && DecideStart(def.nodes) == Some(entry)
    requires FansInto(def, env.cel, entry, fan, template)
    ensures StartInstance(env, Bare(def)).Ok? && Hung(RunAll(env, Began(env, Bare(def)), steps, fuel))
  {
    var s := Scene(WorkflowStatus.Active, [Mark(entry.id, 1, Live)], [], []);
    Begins(env, def, entry, fuel);
    var d := RunAll(env, Began(env, Bare(def)), [], fuel);
    var d1, cmd := Reviews(env, d, def, s, 0, APPROVED, entry);
    assert ReviewedScene(s, 0, APPROVED) == EmptyScene(entry);
    EmptyHangs(env, def, entry, fan, template, d1, fuel);
    steps := [SignalStep(cmd)];
    assert steps[..0] == [];
  }

  lemma FanEmpty(ids: seq<NodeId>, cel: Cel)
    requires FanIds(ids) && cel.items("items", map[]) == Some([])
    ensures FansInto(Fan(ids, WaitAny), cel, FanNode(ids, WaitAny, 1), FanOut(ids[2], ids[4]), ids[3])
  {
    FanFound(ids, WaitAny, 1);
    FanFound(ids, WaitAny, 4);
    FanDecides(ids, WaitAny, cel, map[], []);
    assert ForEachTargets(FanNode(ids, WaitAny, 3), []) == [];
    TemplateAt(Fan(ids, WaitAny).nodes, ids[4], 2);
  }

  /** An instance of an accepted definition hangs: a start and calls lead it to a ForEach of no items whose join waits
      for any branch, and no sequence of calls moves the instance any more. */
  lemma EmptyForEachHangs(env: Env, ids: seq<NodeId>, fuel: nat) returns (steps: seq<Step>)
    requires FanIds(ids) && env.cel.compiles("items") && env.cel.items("items", map[]) == Some([])
    ensures var cmd := Bare(Fan(ids, WaitAny));
            && ValidDefinition(cmd.def, env.cel) && StartInstance(env, cmd).Ok?
            && var d := RunAll(env, Began(env, cmd), steps, fuel);
               Hung(d) && forall later :: SameInstance(d, RunAll(env, d, later, fuel))
  {
    FanAccepted(ids, WaitAny, env.cel);
    FirstApproval(Fan(ids, WaitAny).nodes, 1);
    FanEmpty(ids, env.cel);
    steps := EmptyRun(env, Fan(ids, WaitAny), FanNode(ids, WaitAny, 1), FanOut(ids[2], ids[4]), ids[3], fuel);
    var d := RunAll(env, Began(env, Bare(Fan(ids, WaitAny))), steps, fuel);
    forall later ensures SameInstance(d, RunAll(env, d, later, fuel)) {
      HungForever(env, d, later, fuel);
    }
  }

  // ------------------------------------------------------------------ an entry the start does not lead to

  const LONE_KINDS: seq<NodeConfig> := [NodeConfig.Start, Approves(), NodeConfig.End(None)]

  const LONE_ARCS: seq<Arc> := [Arc(1, 2, APPROVED)]

  predicate LoneIds(ids: seq<NodeId>) {
    |ids| == 3 && forall i, j :: 0 <= i < j < 3 ==> ids[i] != ids[j]
  }

  /** A start without edges, an approval, an end. */
  function Lone(ids: seq<NodeId>): Definition
    requires LoneIds(ids)
  {
    Sample(ids, LONE_KINDS, LONE_ARCS)
  }

  lemma LoneAccepted(ids: seq<NodeId>, cel: Cel)
    requires LoneIds(ids)
    ensures ValidDefinition(Lone(ids), cel)
  {
    ArcFollowed(ids, LONE_KINDS, LONE_ARCS, 0);
    ApprovalValid(Lone(ids), cel, NodeAt(ids, LONE_KINDS, 1));
    Accepted(ids, LONE_KINDS, LONE_ARCS, cel);
  }

  lemma LoneUnreached(ids: seq<NodeId>)
    requires LoneIds(ids)
    ensures !Reaches(Lone(ids), ids[0], ids[1])
  {
    var def := Lone(ids);
    Found(ids, LONE_KINDS, LONE_ARCS, 0);
    assert def.transitions == [EdgeAt(ids, LONE_ARCS, 0)];
    NoEdgesFrom(def.transitions, ids[0]);
    if Reaches(def, ids[0], ids[1]) {
      ClosedContainsReachable(def, {ids[0]}, ids[0], ids[1]);
    }
  }

  lemma LoneStarts(env: Env, ids: seq<NodeId>)
    requires LoneIds(ids)
    ensures DecideStart(Lone(ids).nodes) == Some(NodeAt(ids, LONE_KINDS, 1)) && StartInstance(env, Bare(Lone(ids))).Ok?
  {
    LoneAccepted(ids, env.cel);
    Found(ids, LONE_KINDS, LONE_ARCS, 1);
    FirstApproval(Lone(ids).nodes, 1);
    Begins(env, Lone(ids), NodeAt(ids, LONE_KINDS, 1), 0);
  }

  /** An accepted definition enters at a node its start does not lead to, and lint reports that node as unreachable
      while the first activity stands there. */
  lemma EntryNotFromStart(env: Env, ids: seq<NodeId>, fuel: nat)
    requires LoneIds(ids)
    ensures var cmd := Bare(Lone(ids));
            && ValidDefinition(cmd.def, env.cel) && StartInstance(env, cmd).Ok? && Starts(cmd.def.nodes) == [ids[0]]
            && !Reaches(cmd.def, ids[0], DecideStart(cmd.def.nodes).value.id)
            && !NeverReported(env, cmd, fuel)
  {
    LoneAccepted(ids, env.cel);
    LoneStarts(env, ids);
    LoneUnreached(ids);
    SampleStarts(ids, LONE_KINDS, LONE_ARCS);
    EntryReported(env, Bare(Lone(ids)), ids[0], fuel);
  }
}
