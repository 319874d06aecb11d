/** Runs of accepted definitions in which a join does what it should not: it fires twice in a round, or a call never
    comes to an end. And a definition whose join is set apart, so that it cannot. */
module JoinWitnesses {
  import opened Core
  import opened Routing
  import opened Validation
  import opened Database
  import opened Engine
  import opened Runs
  import opened JoinRegion
  import opened RegionGraph
  import opened Samples
  import opened LintWitnesses
  import opened Trails
  import opened Circuits
  import opened Fuel

  // ------------------------------------------------------------------ the definitions

  /** Start; an approval; a split into two approvals; their join; an approval past it; a condition that leads
      straight back to the join; an end. The join waits for both branches and leads to the approval past it, or,
      `self`, waits for either and leads back to itself. */
  function RingKinds(ids: seq<NodeId>, self: bool): seq<NodeConfig>
    requires |ids| == 9
  {
    [NodeConfig.Start, Approves(), ParallelSplit([ids[3], ids[4]]), Approves(), Approves(),
     NodeConfig.ParallelJoin(if self then WaitAny else WaitAll), Approves(), NodeConfig.Condition(ids[5], []),
         NodeConfig.End(None)]
  }

  function RingArcs(self: bool): seq<Arc> {
    [Arc(1, 2, APPROVED), Arc(3, 5, APPROVED), Arc(4, 5, APPROVED), Arc(5, if self then 5 else 6, APPROVED),
     Arc(6, 7, APPROVED)]
  }

  predicate RingIds(ids: seq<NodeId>) {
    |ids| == 9 && (forall i, j :: 0 <= i < j < 9 ==> ids[i] != ids[j]) && ids[5] != ""
  }

  function Ring(ids: seq<NodeId>, self: bool): Definition
    requires RingIds(ids)
  {
    Sample(ids, RingKinds(ids, self), RingArcs(self))
  }

  function RingNode(ids: seq<NodeId>, self: bool, i: nat): Node
    requires RingIds(ids) && i < 9
  {
    NodeAt(ids, RingKinds(ids, self), i)
  }

  lemma RingFound(ids: seq<NodeId>, self: bool, i: nat)
    requires RingIds(ids) && i < 9
    ensures FindNode(Ring(ids, self).nodes, ids[i]) == Some(RingNode(ids, self, i))
    ensures ids[i] in Ids(Ring(ids, self).nodes)
  {
    Found(ids, RingKinds(ids, self), RingArcs(self), i);
  }

  lemma RingEdge(ids: seq<NodeId>, self: bool, k: nat)
    requires RingIds(ids) && k < 5
    ensures var ts := Ring(ids, self).transitions;
            && FindTransition(ts, ids[RingArcs(self)[k].from], APPROVED)
               == Some(Transition(ids[RingArcs(self)[k].from], ids[RingArcs(self)[k].to], APPROVED))
            && HasEdge(ts, ids[RingArcs(self)[k].from], APPROVED)
  {
    ArcFollowed(ids, RingKinds(ids, self), RingArcs(self), k);
  }

  function IntoJoin(self: bool): seq<nat> {
    if self then [1, 2, 3] else [1, 2]
  }

  lemma RingArcsInto(self: bool)
    ensures ArcsInto(RingArcs(self), 5, IntoJoin(self))
  {
  }

  lemma RingIncoming(ids: seq<NodeId>, self: bool)
    requires RingIds(ids)
    ensures Sources(Incoming(Ring(ids, self).transitions, ids[5])) == RingSources(ids, self)
  {
    RingArcsInto(self);
    SourcesAt(ids, RingKinds(ids, self), RingArcs(self), 5, IntoJoin(self));
  }

  function RingSources(ids: seq<NodeId>, self: bool): seq<NodeId>
    requires RingIds(ids)
  {
    if self then [ids[3], ids[4], ids[5]] else [ids[3], ids[4]]
  }

  lemma RingHome(ids: seq<NodeId>, self: bool, i: nat)
    requires RingIds(ids) && (i == 3 || i == 4)
    ensures FindTransition(Ring(ids, self).transitions, ids[i], APPROVED) == Some(Transition(ids[i], ids[5], APPROVED))
  {
    RingEdge(ids, self, i - 2);
  }

  lemma RingBranch(ids: seq<NodeId>, self: bool, i: nat)
    requires RingIds(ids) && (i == 3 || i == 4)
    ensures SplitBranchValid(Ring(ids, self), ids[i]) && BranchJoin(Ring(ids, self), ids[i]) == Some(ids[5])
  {
    RingFound(ids, self, i);
    RingFound(ids, self, 5);
    RingHome(ids, self, i);
    BranchValid(Ring(ids, self), RingNode(ids, self, i), Transition(ids[i], ids[5], APPROVED), RingNode(ids, self, 5));
  }

  lemma RingNodeValid(ids: seq<NodeId>, self: bool, cel: Cel, i: nat)
    requires RingIds(ids) && i < 9
    ensures NodeValid(Ring(ids, self), cel, RingNode(ids, self, i))
  {
    var def := Ring(ids, self);
    if i == 1 || i == 3 || i == 4 || i == 6 {
      RingEdge(ids, self, if i == 1 then 0 else if i == 6 then 4 else i - 2);
      ApprovalValid(def, cel, RingNode(ids, self, i));
    } else if i == 2 {
      RingBranch(ids, self, 3);
      RingBranch(ids, self, 4);
      TwoBranchesValid(def, ids[3], ids[4]);
    } else if i == 5 {
      RingEdge(ids, self, 3);
      RingIncoming(ids, self);
    } else if i == 7 {
      RingFound(ids, self, 5);
    }
  }

  lemma RingAccepted(ids: seq<NodeId>, self: bool, cel: Cel)
    requires RingIds(ids)
    ensures ValidDefinition(Ring(ids, self), cel)
  {
    forall i | 0 <= i < 9
      ensures NodeValid(Sample(ids, RingKinds(ids, self), RingArcs(self)), cel, NodeAt(ids, RingKinds(ids, self), i))
    {
      RingNodeValid(ids, self, cel, i);
    }
    Accepted(ids, RingKinds(ids, self), RingArcs(self), cel);
  }

  lemma RingEnters(ids: seq<NodeId>, self: bool, cel: Cel)
    requires RingIds(ids)
    ensures DecideAdvance(Ring(ids, self), cel, map[], ids[1], APPROVED)
         == (AdvanceMulti([TargetOf(RingNode(ids, self, 3)), TargetOf(RingNode(ids, self, 4))]), EMPTY_TRACE)
  {
    RingEdge(ids, self, 0);
    RingFound(ids, self, 2);
    RingFound(ids, self, 3);
    RingFound(ids, self, 4);
    LandsAt(Ring(ids, self), cel, map[], Transition(ids[1], ids[2], APPROVED), RingNode(ids, self, 2));
    SplitsInTwo(Ring(ids, self), cel, map[], RingNode(ids, self, 2), RingNode(ids, self, 3), RingNode(ids, self, 4));
  }

  lemma LandsAtJoin(def: Definition, cel: Cel, edge: Transition, join: Node)
    requires FindTransition(def.transitions, edge.from, APPROVED) == Some(edge) && edge.onSignal == APPROVED
    requires FindNode(def.nodes, edge.to) == Some(join) && join.config.ParallelJoin?
    ensures DecideAdvance(def, cel, map[], edge.from, APPROVED) == (AdvanceOutcome.Advance(edge.to, None), EMPTY_TRACE)
  {
    LandsAt(def, cel, map[], edge, join);
  }

  lemma RingArrives(ids: seq<NodeId>, self: bool, cel: Cel, i: nat)
    requires RingIds(ids) && (i == 3 || i == 4)
    ensures DecideAdvance(Ring(ids, self), cel, map[], ids[i], APPROVED)
            == (AdvanceOutcome.Advance(ids[5], None), EMPTY_TRACE)
  {
    RingHome(ids, self, i);
    RingFound(ids, self, 5);
    LandsAtJoin(Ring(ids, self), cel, Transition(ids[i], ids[5], APPROVED), RingNode(ids, self, 5));
  }

  lemma RingPasses(ids: seq<NodeId>, self: bool, cel: Cel)
    requires RingIds(ids)
    ensures DecideAdvance(Ring(ids, self), cel, map[], ids[5], APPROVED)
         == (if self then AdvanceOutcome.Advance(ids[5], None) else AdvanceOutcome.Advance(ids[6], ROLE), EMPTY_TRACE)
  {
    if self {
      RingToItself(ids, cel);
    } else {
      RingPastJoin(ids, cel);
    }
  }

  lemma RingToItself(ids: seq<NodeId>, cel: Cel)
    requires RingIds(ids)
    ensures DecideAdvance(Ring(ids, true), cel, map[], ids[5], APPROVED)
         == (AdvanceOutcome.Advance(ids[5], None), EMPTY_TRACE)
  {
    RingEdge(ids, true, 3);
    RingFound(ids, true, 5);
    LandsAtJoin(Ring(ids, true), cel, Transition(ids[5], ids[5], APPROVED), RingNode(ids, true, 5));
  }

  lemma RingPastJoin(ids: seq<NodeId>, cel: Cel)
    requires RingIds(ids)
    ensures DecideAdvance(Ring(ids, false), cel, map[], ids[5], APPROVED)
         == (AdvanceOutcome.Advance(ids[6], ROLE), EMPTY_TRACE)
  {
    RingEdge(ids, false, 3);
    RingFound(ids, false, 6);
    LandsAtApproval(Ring(ids, false), cel, Transition(ids[5], ids[6], APPROVED), RingNode(ids, false, 6));
  }

  lemma LandsAtApproval(def: Definition, cel: Cel, edge: Transition, node: Node)
    requires FindTransition(def.transitions, edge.from, APPROVED) == Some(edge) && edge.onSignal == APPROVED
    requires FindNode(def.nodes, edge.to) == Some(node) && node.config == Approves()
    ensures DecideAdvance(def, cel, map[], edge.from, APPROVED) == (AdvanceOutcome.Advance(edge.to, ROLE), EMPTY_TRACE)
  {
    LandsAt(def, cel, map[], edge, node);
  }

  lemma RingReturns(ids: seq<NodeId>, self: bool, cel: Cel)
    requires RingIds(ids)
    ensures DecideAdvance(Ring(ids, self), cel, map[], ids[6], APPROVED)
            == (AdvanceOutcome.Advance(ids[5], None), EMPTY_TRACE)
  {
    RingEdge(ids, self, 4);
    BackThroughCondition(ids, self, cel);
    assert DecideAdvance(Ring(ids, self), cel, map[], ids[6], APPROVED) == Resolve(Ring(ids, self), cel, map[], ids[7]);
  }

  lemma BackThroughCondition(ids: seq<NodeId>, self: bool, cel: Cel)
    requires RingIds(ids)
    ensures Resolve(Ring(ids, self), cel, map[], ids[7]) == (AdvanceOutcome.Advance(ids[5], None), EMPTY_TRACE)
  {
    var def := Ring(ids, self);
    RingFound(ids, self, 7);
    RingFound(ids, self, 5);
    assert PickBranch(cel, map[], [], ids[5]) == Some(ids[5]);
    assert ResolveTarget(def, cel, map[], ids[5], {ids[7]}, EMPTY_TRACE, 1)
        == (AdvanceOutcome.Advance(ids[5], None), EMPTY_TRACE);
  }

  // ------------------------------------------------------------------ the join that fires twice

  /** The nodes the run goes through. */
  datatype Cast = Cast(a: Node, b1: Node, b2: Node, j: Node, x: Node)

  predicate Plain(def: Definition, node: Node) {
    FindNode(def.nodes, node.id) == Some(node) && node.config == Approves() && node.contextWrites == []
  }

  predicate DistinctIds(c: Cast) {
    && c.a.id != c.b1.id && c.a.id != c.b2.id && c.b1.id != c.b2.id
    && c.x.id != c.b1.id && c.x.id != c.b2.id
  }

  predicate Gathers(def: Definition, c: Cast) {
    && FindNode(def.nodes, c.j.id) == Some(c.j) && c.j.config == NodeConfig.ParallelJoin(WaitAll)
    && Sources(Incoming(def.transitions, c.j.id)) == [c.b1.id, c.b2.id]
  }

  predicate Decides(def: Definition, cel: Cel, node: Node, outcome: AdvanceOutcome) {
    DecideAdvance(def, cel, map[], node.id, APPROVED) == (outcome, EMPTY_TRACE)
  }

  predicate Plays(def: Definition, cel: Cel, c: Cast) {
    && Plain(def, c.a) && Plain(def, c.b1) && Plain(def, c.b2) && Plain(def, c.x)
    && DistinctIds(c) && Gathers(def, c)
    && Decides(def, cel, c.a, AdvanceMulti([TargetOf(c.b1), TargetOf(c.b2)]))
    && Decides(def, cel, c.b1, AdvanceOutcome.Advance(c.j.id, None))
    && Decides(def, cel, c.b2, AdvanceOutcome.Advance(c.j.id, None))
    && Decides(def, cel, c.j, AdvanceOutcome.Advance(c.x.id, ROLE))
    && Decides(def, cel, c.x, AdvanceOutcome.Advance(c.j.id, None))
  }

  function RingCast(ids: seq<NodeId>, self: bool): Cast
    requires RingIds(ids)
  {
    Cast(RingNode(ids, self, 1), RingNode(ids, self, 3), RingNode(ids, self, 4), RingNode(ids, self, 5),
         RingNode(ids, self, 6))
  }

  lemma RingPlain(ids: seq<NodeId>, self: bool, i: nat)
    requires RingIds(ids) && (i == 1 || i == 3 || i == 4 || i == 6)
    ensures Plain(Ring(ids, self), RingNode(ids, self, i))
  {
    RingFound(ids, self, i);
  }

  lemma RingGathers(ids: seq<NodeId>, self: bool)
    requires RingIds(ids) && !self
    ensures Gathers(Ring(ids, self), RingCast(ids, self))
  {
    RingFound(ids, self, 5);
    RingIncoming(ids, self);
  }

  lemma RingPlays(ids: seq<NodeId>, self: bool, cel: Cel)
    requires RingIds(ids) && !self
    ensures Plays(Ring(ids, self), cel, RingCast(ids, self))
  {
    RingPlain(ids, self, 1);
    RingPlain(ids, self, 3);
    RingPlain(ids, self, 4);
    RingPlain(ids, self, 6);
    RingGathers(ids, self);
    RingEnters(ids, self, cel);
    RingArrives(ids, self, cel, 3);
    RingArrives(ids, self, cel, 4);
    RingPasses(ids, self, cel);
    RingReturns(ids, self, cel);
  }

  function OnStage(c: Cast, n: nat): Node
    requires n < 4
  {
    match n
    case 0 => c.a
    case 1 => c.b1
    case 2 => c.b2
    case _ => c.x
  }

  function Live1(node: Node): Mark { Mark(node.id, 1, Live) }

  function Done1(node: Node): Mark { Mark(node.id, 1, Done) }

  function Act(c: Cast, n: nat): Scene {
    match n
    case 0 => Scene(WorkflowStatus.Active, [Live1(c.a)], [], [])
    case 1 => Scene(WorkflowStatus.Active, [Done1(c.a), Live1(c.b1), Live1(c.b2)], [], [])
    case 2 => Scene(WorkflowStatus.Active, [Done1(c.a), Done1(c.b1), Live1(c.b2)], [], [])
    case 3 => Scene(WorkflowStatus.Active, [Done1(c.a), Done1(c.b1), Done1(c.b2), Live1(c.x)], [(c.j.id, 1)], [])
    case _ => Scene(WorkflowStatus.Active, [Done1(c.a), Done1(c.b1), Done1(c.b2), Done1(c.x), Live1(c.x)],
                    [(c.j.id, 1), (c.j.id, 1)], [])
  }

  /** What the act needs of the definition. */
  predicate StageSet(def: Definition, cel: Cel, c: Cast, n: nat)
    requires n < 4
  {
    && DistinctIds(c) && Gathers(def, c) && Plain(def, OnStage(c, n)) && Plain(def, c.x)
    && Decides(def, cel, OnStage(c, n), AdvanceOutcome.Advance(c.j.id, None))
    && Decides(def, cel, c.j, AdvanceOutcome.Advance(c.x.id, ROLE))
  }

  lemma PlaysStage(def: Definition, cel: Cel, c: Cast, n: nat)
    requires Plays(def, cel, c) && 1 <= n < 4
    ensures StageSet(def, cel, c, n)
  {
  }

  lemma ActReviewable(def: Definition, cel: Cel, c: Cast, d: Db, n: nat)
    requires 1 <= n < 4 && Looks(d, def, Act(c, n)) && StageSet(def, cel, c, n)
    ensures Reviewable(d, def, Act(c, n), n, APPROVED, OnStage(c, n))
  {
  }

  /** Each approval in turn leads from one act to the next. */
  lemma ActEnds(env: Env, def: Definition, c: Cast, d: Db, n: nat, fuel: nat) returns (cmd: SignalCommand)
    requires 1 <= n < 4 && Looks(d, def, Act(c, n)) && fuel > 0
    requires StageSet(def, env.cel, c, n)
    ensures LooksAfter(Run(env, d, SignalStep(cmd), fuel), def, Act(c, n + 1))
  {
    var d1: Db;
    ActReviewable(def, env.cel, c, d, n);
    d1, cmd := Reviews(env, d, def, Act(c, n), n, APPROVED, OnStage(c, n));
    if n == 1 {
      ActWaits(env, def, c, d1, fuel);
    } else {
      ActFires(env, def, c, d1, n, fuel);
    }
  }

  lemma ActSplits(env: Env, def: Definition, c: Cast, d: Db, fuel: nat)
    requires Plain(def, c.b1) && Plain(def, c.b2) && Looks(d, def, ReviewedScene(Act(c, 0), 0, APPROVED))
    requires Decides(def, env.cel, c.a, AdvanceMulti([TargetOf(c.b1), TargetOf(c.b2)]))
    ensures LooksAfter(MoveOn(env, d, 0, APPROVED, fuel), def, Act(c, 1))
  {
    var s := ReviewedScene(Act(c, 0), 0, APPROVED);
    assert s.marks == [Done1(c.a)];
    MovesInTwo(env, d, def, s, 0, APPROVED, c.b1, c.b2, fuel);
    assert s.marks + [Live1(c.b1), Live1(c.b2)] == Act(c, 1).marks;
  }

  lemma ActWaits(env: Env, def: Definition, c: Cast, d: Db, fuel: nat)
    requires DistinctIds(c) && Gathers(def, c) && Looks(d, def, ReviewedScene(Act(c, 1), 1, APPROVED))
    requires Decides(def, env.cel, c.b1, AdvanceOutcome.Advance(c.j.id, None))
    ensures LooksAfter(MoveOn(env, d, 1, APPROVED, fuel), def, Act(c, 2))
  {
    OneCounts(def, c);
    MovesToWait(env, d, def, Act(c, 2), 1, APPROVED, c.j, [c.b1.id, c.b2.id], [1], fuel);
  }

  lemma OneCounts(def: Definition, c: Cast)
    requires DistinctIds(c) && Gathers(def, c)
    ensures Counts(def, Act(c, 2), c.j, [c.b1.id, c.b2.id], 1, [1])
    ensures ReviewedScene(Act(c, 1), 1, APPROVED) == Act(c, 2) && Act(c, 2).marks[1] == Done1(c.b1)
  {
  }

  /** The scene in which both branches have arrived, the second or the one past the join just now. */
  function Gathered(c: Cast, n: nat): Scene {
    if n == 2 then Scene(WorkflowStatus.Active, [Done1(c.a), Done1(c.b1), Done1(c.b2)], [], [])
    else Scene(WorkflowStatus.Active, [Done1(c.a), Done1(c.b1), Done1(c.b2), Done1(c.x)], [(c.j.id, 1)], [])
  }

  lemma GatheredCounts(def: Definition, c: Cast, n: nat)
    requires DistinctIds(c) && Gathers(def, c) && (n == 2 || n == 3)
    ensures Counts(def, Gathered(c, n), c.j, [c.b1.id, c.b2.id], 1, [1, 2])
    ensures ReviewedScene(Act(c, n), n, APPROVED) == Gathered(c, n)
    ensures Act(c, n + 1)
         == Gathered(c, n).(marks := Gathered(c, n).marks + [Live1(c.x)], fired := Gathered(c, n).fired + [(c.j.id, 1)])
  {
  }

  lemma ActFires(env: Env, def: Definition, c: Cast, d: Db, n: nat, fuel: nat)
    requires DistinctIds(c) && Gathers(def, c) && Plain(def, c.x) && (n == 2 || n == 3) && fuel > 0
    requires Decides(def, env.cel, if n == 2 then c.b2 else c.x, AdvanceOutcome.Advance(c.j.id, None))
    requires Decides(def, env.cel, c.j, AdvanceOutcome.Advance(c.x.id, ROLE))
    requires Looks(d, def, ReviewedScene(Act(c, n), n, APPROVED))
    ensures LooksAfter(MoveOn(env, d, n, APPROVED, fuel), def, Act(c, n + 1))
  {
    GatheredCounts(def, c, n);
    MovesPast(env, d, def, Gathered(c, n), n, APPROVED, c.j, [c.b1.id, c.b2.id], [1, 2], c.x, fuel);
  }

  lemma SplitReached(env: Env, def: Definition, c: Cast, fuel: nat) returns (steps: seq<Step>)
    requires ValidDefinition(def, env.cel) && DecideStart(def.nodes) == Some(c.a)
    requires Plain(def, c.a) && Plain(def, c.b1) && Plain(def, c.b2)
    requires Decides(def, env.cel, c.a, AdvanceMulti([TargetOf(c.b1), TargetOf(c.b2)]))
    ensures Reached(env, Bare(def), steps, fuel, Act(c, 1))
  {
    Begins(env, def, c.a, fuel);
    var d1, cmd := Reviews(env, RunAll(env, Began(env, Bare(def)), [], fuel), def, Act(c, 0), 0, APPROVED, c.a);
    ActSplits(env, def, c, d1, fuel);
    ReachedMore(env, Bare(def), [], fuel, Act(c, 0), SignalStep(cmd), Act(c, 1));
    steps := [] + [SignalStep(cmd)];
  }

  lemma ActReached(env: Env, def: Definition, c: Cast, n: nat, fuel: nat) returns (steps: seq<Step>)
    requires ValidDefinition(def, env.cel) && DecideStart(def.nodes) == Some(c.a) && Plays(def, env.cel, c)
    requires 1 <= n <= 4 && fuel > 0
    ensures Reached(env, Bare(def), steps, fuel, Act(c, n))
  {
    if n == 1 {
      steps := SplitReached(env, def, c, fuel);
    } else {
      var before := ActReached(env, def, c, n - 1, fuel);
      PlaysStage(def, env.cel, c, n - 1);
      var cmd := ActEnds(env, def, c, RunAll(env, Began(env, Bare(def)), before, fuel), n - 1, fuel);
      ReachedMore(env, Bare(def), before, fuel, Act(c, n - 1), SignalStep(cmd), Act(c, n));
      steps := before + [SignalStep(cmd)];
    }
  }

  predicate HasJoinsPassed(env: Env, cmd: StartCommand, steps: seq<Step>, fuel: nat, passed: seq<(NodeId, int)>) {
    StartInstance(env, cmd).Ok? && JoinsPassed(RunAll(env, Began(env, cmd), steps, fuel).log) == passed
  }

  lemma LastActPassed(env: Env, cmd: StartCommand, steps: seq<Step>, fuel: nat, c: Cast)
    requires Reached(env, cmd, steps, fuel, Act(c, 4))
    ensures HasJoinsPassed(env, cmd, steps, fuel, [(c.j.id, 1), (c.j.id, 1)])
  {
  }

  lemma RingStarts(ids: seq<NodeId>, self: bool)
    requires RingIds(ids)
    ensures DecideStart(Ring(ids, self).nodes) == Some(RingCast(ids, self).a)
  {
    FirstApproval(Ring(ids, self).nodes, 1);
  }

  /** A join fires twice in one round of an accepted definition, although its only incoming edges are its two
      branches and its split is entered once: the node past it leads back to it through a condition's default. */
  lemma JoinFiresTwice(env: Env, ids: seq<NodeId>, fuel: nat) returns (steps: seq<Step>)
    requires RingIds(ids) && fuel > 0
    ensures var def := Ring(ids, false);
            && ValidDefinition(def, env.cel) && Sources(Incoming(def.transitions, ids[5])) == [ids[3], ids[4]]
            && HasJoinsPassed(env, Bare(def), steps, fuel, [(ids[5], 1), (ids[5], 1)])
  {
    RingIncoming(ids, false);
    RingAccepted(ids, false, env.cel);
    RingPlays(ids, false, env.cel);
    RingStarts(ids, false);
    steps := ActReached(env, Ring(ids, false), RingCast(ids, false), 4, fuel);
    LastActPassed(env, Bare(Ring(ids, false)), steps, fuel, RingCast(ids, false));
  }

  // ------------------------------------------------------------------ a join set apart

  /** The fan of a ForEach over its template, by contrast, is set apart: only its end lies past its join. */
  lemma FanSetApart(ids: seq<NodeId>, strategy: JoinStrategy, round: int, items: nat)
    requires FanIds(ids)
    ensures SetApart(Fan(ids, strategy), Gate(FanNode(ids, strategy, 4), round, [ids[3]], items, items, false),
                     iset{ids[5]})
  {
    var def := Fan(ids, strategy);
    FanFound(ids, strategy, 3);
    FanFound(ids, strategy, 4);
    FanFound(ids, strategy, 5);
    forall i, b | 3 <= i < 6 && LeadsTo(def, ids[i], b) ensures i < 5 && b == ids[i + 1] {
      FanLeads(ids, strategy, i, b);
    }
    assert forall b :: LeadsTo(def, ids[3], b) ==> b == ids[4];
    assert forall b :: LeadsTo(def, ids[4], b) ==> b == ids[5];
  }

  lemma FanLeads(ids: seq<NodeId>, strategy: JoinStrategy, i: nat, b: NodeId)
    requires FanIds(ids) && 3 <= i < 6 && LeadsTo(Fan(ids, strategy), ids[i], b)
    ensures i < 5 && b == ids[i + 1]
  {
    FanFound(ids, strategy, i);
    assert !Names(FanNode(ids, strategy, i), b);
    FanArcsLate(ids, strategy, i, b);
  }

  lemma FanArcsLate(ids: seq<NodeId>, strategy: JoinStrategy, i: nat, b: NodeId)
    requires FanIds(ids) && 3 <= i < 6 && EdgeBetween(Fan(ids, strategy), ids[i], b)
    ensures i < 5 && b == ids[i + 1]
  {
    var ts := Fan(ids, strategy).transitions;
    var k :| 0 <= k < |ts| && IsEdge(ts[k], ids[i], b);
    assert ts[k] == EdgeAt(ids, FAN_ARCS, k);
  }

  // ------------------------------------------------------------------ the join that never ends

  /** A join that waits for any of its branches and leads back to itself. */
  predicate TurnsRound(def: Definition, cel: Cel, c: Cast, sources: seq<NodeId>) {
    && FindNode(def.nodes, c.j.id) == Some(c.j) && c.j.config == NodeConfig.ParallelJoin(WaitAny)
    && Sources(Incoming(def.transitions, c.j.id)) == sources && c.b1.id in sources
    && Decides(def, cel, c.b1, AdvanceOutcome.Advance(c.j.id, None))
    && Decides(def, cel, c.j, AdvanceOutcome.Advance(c.j.id, None))
  }

  lemma TurnIsSatisfied(cel: Cel, def: Definition, c: Cast, sources: seq<NodeId>, d: Db)
    requires TurnsRound(def, cel, c, sources) && Looks(d, def, ReviewedScene(Act(c, 1), 1, APPROVED))
    ensures Satisfies(d, {}, c.j, 1)
  {
    NoFanNoCount(d.log, c.j.id, 1);
    assert Shows(d.activities[1], Done1(c.b1));
    OneArrived(d.activities, 1, sources, 1);
  }

  lemma TurnCircles(cel: Cel, def: Definition, c: Cast, sources: seq<NodeId>, d: Db)
    requires TurnsRound(def, cel, c, sources) && Looks(d, def, ReviewedScene(Act(c, 1), 1, APPROVED))
    ensures Circles(cel, d, ToJoin(c.j, false), 1)
  {
    var w, at := TrackOf(cel, d, 1), Place(c.j, {});
    TurnIsSatisfied(cel, def, c, sources, d);
    assert w.lead(c.j.id) == ToJoin(c.j, false);
    assert PlaceOf(ToJoin(c.j, false), {}) == at;
    assert PlaceAfter(w, at, 0) == Some(at);
    assert PlaceAfter(w, at, 1) == PlaceAfter(w, at, 0);
    assert ComesRound(w, at, 0, 1);
  }

  lemma TurnNeverEnds(env: Env, def: Definition, c: Cast, sources: seq<NodeId>, d: Db, fuel: nat)
    requires TurnsRound(def, env.cel, c, sources) && Looks(d, def, ReviewedScene(Act(c, 1), 1, APPROVED))
    ensures MoveOn(env, d, 1, APPROVED, fuel) == Err(Diverges)
  {
    assert Shows(d.activities[1], Done1(c.b1));
    TurnCircles(env.cel, def, c, sources, d);
    assert MoveLead(env, d, 1, APPROVED) == ToJoin(c.j, false);
    CircleIsEndless(env.cel, d, ToJoin(c.j, false), 1, fuel);
    MoveDiverges(env, d, 1, APPROVED, fuel);
  }

  lemma RingTurns(ids: seq<NodeId>, cel: Cel)
    requires RingIds(ids)
    ensures TurnsRound(Ring(ids, true), cel, RingCast(ids, true), RingSources(ids, true))
  {
    RingFound(ids, true, 5);
    RingIncoming(ids, true);
    RingArrives(ids, true, cel, 3);
    RingPasses(ids, true, cel);
  }

  /** A call that never ends, on a reachable state of an accepted definition: a run leads to a split whose join,
      satisfied by either branch, advances straight to itself. */
  lemma SelfJoinNeverEnds(env: Env, ids: seq<NodeId>, f: nat) returns (steps: seq<Step>, cmd: SignalCommand)
    requires RingIds(ids)
    ensures var def := Ring(ids, true);
            && ValidDefinition(def, env.cel) && StartInstance(env, Bare(def)).Ok?
            && var d := RunAll(env, Began(env, Bare(def)), steps, f);
               forall fuel :: Run(env, d, SignalStep(cmd), fuel) == Err(Diverges)
  {
    var def, c := Ring(ids, true), RingCast(ids, true);
    RingAccepted(ids, true, env.cel);
    RingStarts(ids, true);
    RingPlain(ids, true, 1);
    RingPlain(ids, true, 3);
    RingPlain(ids, true, 4);
    RingEnters(ids, true, env.cel);
    RingTurns(ids, env.cel);
    steps := SplitReached(env, def, c, f);
    cmd := TurnCommand(env, def, c, RingSources(ids, true), RunAll(env, Began(env, Bare(def)), steps, f));
  }

  lemma TurnCommand(env: Env, def: Definition, c: Cast, sources: seq<NodeId>, d: Db) returns (cmd: SignalCommand)
    requires TurnsRound(def, env.cel, c, sources) && Plain(def, c.b1) && Looks(d, def, Act(c, 1))
    ensures forall fuel :: Run(env, d, SignalStep(cmd), fuel) == Err(Diverges)
  {
    var d1: Db;
    d1, cmd := Reviews(env, d, def, Act(c, 1), 1, APPROVED, c.b1);
    forall fuel ensures Run(env, d, SignalStep(cmd), fuel) == Err(Diverges) {
      TurnNeverEnds(env, def, c, sources, d1, fuel);
    }
  }
}
